/** What every run of the approval bot keeps: that undo never revives a number, what a
    single decision and a mass revocation do, and what the sweep notices. */
module BotSafety {
  import opened Wrappers
  import opened Clocks
  import opened Paths
  import opened Percent
  import opened Grants
  import opened Lifecycle
  import opened Bot
  import Replies
  import Texts

  // ------------------------------------------------------------------- undo

  predicate AboutSettled(f: Fact, st: Store) {
    match f
    case Armed(id, _) => id in st.rows && Settled(st.rows[id])
    case Asked(id) => id in st.rows
    case _ => true
  }

  predicate FactsSettled(facts: seq<Fact>, st: Store) {
    forall i | 0 <= i < |facts| :: AboutSettled(facts[i], st)
  }

  /** An id is armed at most once, and reopened at most once. */
  predicate OncePerId(facts: seq<Fact>) {
    forall i, j | 0 <= i < j < |facts| ::
      && !(facts[i].Armed? && facts[j].Armed? && facts[i].id == facts[j].id)
      && !(facts[i].Reopened? && facts[j].Reopened? && facts[i].from == facts[j].from)
  }

  /** Fact i is the arming that fact j used in time. */
  predicate UsedInTime(facts: seq<Fact>, i: nat, j: nat) {
    && i < j < |facts| && facts[j].Reopened? && facts[i].Armed? && facts[i].id == facts[j].from
    && facts[j].at < facts[i].since + UNDO_GRACE
  }

  /** A reopening is for a strictly larger id, asked for just before. */
  ghost predicate ReopenedFine(facts: seq<Fact>, j: nat)
    requires j < |facts|
  {
    facts[j].Reopened? ==>
      && facts[j].from < facts[j].id
      && j > 0 && facts[j - 1].Asked? && facts[j - 1].id == facts[j].id
      && exists i :: UsedInTime(facts, i, j)
  }

  /** The window belongs to a settled row, holds what that row asked for, was armed, and
      has not been used. */
  predicate WindowOk(d: Desk, id: nat)
    requires id in d.windows
  {
    var w := d.windows[id];
    && id in d.store.rows && Settled(d.store.rows[id])
    && w.instance == d.store.rows[id].instance && w.reason == d.store.rows[id].reason
    && w.items == d.store.rows[id].items
    && Armed(id, w.deadline - UNDO_GRACE) in d.facts
    && forall f | f in d.facts :: !(f.Reopened? && f.from == id)
  }

  function CountArmed(facts: seq<Fact>): nat {
    if facts == [] then 0
    else CountArmed(facts[..|facts| - 1]) + (if facts[|facts| - 1].Armed? then 1 else 0)
  }

  function CountReopened(facts: seq<Fact>): nat {
    if facts == [] then 0
    else CountReopened(facts[..|facts| - 1]) + (if facts[|facts| - 1].Reopened? then 1 else 0)
  }

  ghost predicate UndoOk(d: Desk) {
    && FactsSettled(d.facts, d.store)
    && OncePerId(d.facts)
    && (forall j | 0 <= j < |d.facts| :: ReopenedFine(d.facts, j))
    && (forall id | id in d.windows :: WindowOk(d, id))
    && CountReopened(d.facts) + |d.windows| <= CountArmed(d.facts)
  }

  ghost predicate DeskOk(room: Room, d: Desk) {
    StoreOk(d.store, room.cfg) && UndoOk(d)
  }

  /** The desk one or more steps later. */
  ghost predicate Later(room: Room, d: Desk, d': Desk) {
    && d.tick <= d'.tick && d.facts <= d'.facts
    && Evolves(d.store, room.clock(d.tick), d'.store, room.clock(d'.tick), room.cfg)
  }

  lemma LaterTwice(room: Room, a: Desk, b: Desk, c: Desk)
    requires Later(room, a, b) && Later(room, b, c)
    ensures Later(room, a, c)
  {
    EvolvesTransitive(a.store, room.clock(a.tick), b.store, room.clock(b.tick), c.store, room.clock(c.tick), room.cfg);
  }

  // ---------------------------------------------------- undo stays in order

  lemma CountsSnoc(facts: seq<Fact>, f: Fact)
    ensures CountArmed(facts + [f]) == CountArmed(facts) + (if f.Armed? then 1 else 0)
    ensures CountReopened(facts + [f]) == CountReopened(facts) + (if f.Reopened? then 1 else 0)
  {
    assert (facts + [f])[..|facts|] == facts;
  }

  lemma SettledLater(room: Room, d: Desk, d': Desk, i: nat)
    requires i < |d.facts| && AboutSettled(d.facts[i], d.store) && Later(room, d, d')
    ensures AboutSettled(d.facts[i], d'.store)
  {
    match d.facts[i]
    case Armed(id, _) => assert RowEvolves(d.store.rows[id], room.clock(d.tick), d'.store.rows[id],
          room.clock(d'.tick), room.cfg);
    case _ =>
  }

  lemma ReopenedFineLater(facts: seq<Fact>, f: Fact, j: nat)
    requires j < |facts| && ReopenedFine(facts, j)
    ensures ReopenedFine(facts + [f], j)
  {
    if facts[j].Reopened? {
      var i :| UsedInTime(facts, i, j);
      assert UsedInTime(facts + [f], i, j);
    }
  }

  predicate Neutral(f: Fact) { !f.Armed? && !f.Reopened? }

  lemma WindowLater(room: Room, d: Desk, d': Desk, id: nat)
    requires id in d.windows && WindowOk(d, id) && Later(room, d, d')
    requires id in d'.windows && d'.windows[id] == d.windows[id]
    requires forall f | f in d'.facts && f !in d.facts :: !(f.Reopened? && f.from == id)
    ensures WindowOk(d', id)
  {
    assert RowEvolves(d.store.rows[id], room.clock(d.tick), d'.store.rows[id], room.clock(d'.tick), room.cfg);
  }

  /** A step that leaves at most one fact, arms nothing and reopens nothing. */
  lemma UndoStays(room: Room, d: Desk, d': Desk)
    requires UndoOk(d) && Later(room, d, d') && d'.windows == d.windows
    requires d'.facts == d.facts ||
             (|d'.facts| == |d.facts| + 1 && Neutral(d'.facts[|d.facts|]) && AboutSettled(d'.facts[|d.facts|],
                   d'.store))
    ensures UndoOk(d')
  {
    var n := |d.facts|;
    if d'.facts != d.facts {
      assert d'.facts == d.facts + [d'.facts[n]];
      CountsSnoc(d.facts, d'.facts[n]);
    }
    forall i | 0 <= i < |d'.facts| ensures AboutSettled(d'.facts[i], d'.store) && ReopenedFine(d'.facts, i) {
      if i < n {
        SettledLater(room, d, d', i);
        if d'.facts != d.facts {
          ReopenedFineLater(d.facts, d'.facts[n], i);
        }
      }
    }
    forall id | id in d'.windows ensures WindowOk(d', id) {
      WindowLater(room, d, d', id);
    }
  }

  // ------------------------------------------------------------ step by step

  lemma Passing(room: Room, d: Desk, d': Desk)
    requires Monotone(room.clock) && d'.store == d.store && d.tick <= d'.tick && d.facts <= d'.facts
    ensures Later(room, d, d')
  {
    EvolvesReflexive(d.store, room.clock(d.tick), room.clock(d'.tick), room.cfg);
  }

  /** Only the clock moves on. */
  lemma IdleKeeps(room: Room, d: Desk, d': Desk)
    requires DeskOk(room, d) && Monotone(room.clock) && d'.store == d.store && d.tick <= d'.tick
    requires d'.windows == d.windows && d'.facts == d.facts
    ensures DeskOk(room, d') && Later(room, d, d')
  {
    Passing(room, d, d');
    UndoStays(room, d, d');
  }

  lemma EvolvesStretched(st: Store, t: Time, t0: Time, st': Store, t1: Time, t': Time, cfg: Config)
    requires t <= t0 && t1 <= t' && Evolves(st, t0, st', t1, cfg)
    ensures Evolves(st, t, st', t', cfg)
  {
    EvolvesReflexive(st, t, t0, cfg);
    EvolvesReflexive(st', t1, t', cfg);
    EvolvesTransitive(st, t, st, t0, st', t1, cfg);
    EvolvesTransitive(st, t, st', t1, st', t', cfg);
  }

  /** A new request takes the next number, and nothing else changes. */
  lemma AskKeeps(room: Room, d: Desk, instance: string, reason: string, items: seq<RawItem>)
    requires DeskOk(room, d) && Monotone(room.clock)
    ensures var (d', r) := AskFor(room, d, instance, reason, items);
            && DeskOk(room, d') && Later(room, d, d') && d'.windows == d.windows
            && (r.Ok? ==>
                  && r.value == d.store.nextId && CleanItems(items).Ok?
                  && d'.store.rows == d.store.rows[r.value :=
                       NewRow(instance, Texts.Strip(reason), CleanItems(items).value, room.clock(d.tick))]
                  && d'.facts == d.facts + [Asked(r.value)])
  {
    hide Create, UndoOk, CleanItems, Evolves, RowOk;
    var (d', r) := AskFor(room, d, instance, reason, items);
    CreateKeeps(d.store, room.cfg, instance, reason, items, room.clock(d.tick));
    var t := room.clock(d.tick);
    EvolvesStretched(d.store, t, t, d'.store, t, room.clock(d'.tick), room.cfg);
    if r.Ok? {
      assert d.store.nextId == r.value;
      UndoStays(room, d, d');
    } else {
      var (st, e) := Create(d.store, room.cfg, instance, reason, items, t);
      assert st == d.store && d' == d;
    }
  }

  lemma PostKeeps(room: Room, d: Desk, id: nat, post: Post)
    requires DeskOk(room, d) && Monotone(room.clock) && id in d.store.rows
    ensures var (d', p) := PostReq(d, id, post);
            && DeskOk(room, d') && Later(room, d, d')
            && d'.store.rows == d.store.rows && d'.windows == d.windows && d'.facts == d.facts && d'.tick == d.tick
  {
    hide RowOk, RowEvolves, UndoOk;
    var d' := PostReq(d, id, post).0;
    EvolvesReflexive(d.store, room.clock(d.tick), room.clock(d.tick), room.cfg);
    UndoStays(room, d, d');
  }

  // ------------------------------------------------------------- decisions

  /** One live row became settled, and nothing else. */
  ghost predicate ClosedRow(d: Desk, d': Desk, id: nat) {
    && id in d.store.rows && !Settled(d.store.rows[id])
    && id in d'.store.rows && Settled(d'.store.rows[id])
    && d'.store.rows == d.store.rows[id := d'.store.rows[id]]
    && d'.facts == d.facts
  }

  lemma CloseKeeps(room: Room, d: Desk, d': Desk, id: nat)
    requires DeskOk(room, d) && Later(room, d, d') && StoreOk(d'.store, room.cfg)
    requires ClosedRow(d, d', id) && d'.windows == d.windows
    ensures DeskOk(room, d')
  {
    UndoStays(room, d, d');
  }

  /** The row was settled in this state; what it had asked for stays. */
  predicate SettledAs(st: Store, st': Store, id: nat, state: State) {
    && id in st.rows && id in st'.rows && !Settled(st.rows[id]) && (state == Rejected || state == Revoked)
    && st' == Put(st, id, st'.rows[id]) && st'.rows[id].state == state
    && st'.rows[id].instance == st.rows[id].instance && st'.rows[id].reason == st.rows[id].reason
    && st'.rows[id].items == st.rows[id].items
  }

  lemma RejectedRow(st: Store, cfg: Config, id: nat, t0: Time, t1: Time)
    ensures var (st', r) := Reject(st, cfg, id, t0, t1);
            && (r.Ok? <==> id in st.rows && StateAt(st.rows[id], cfg, t0) == Pending)
            && (if r.Ok? then SettledAs(st, st', id, Rejected) && 2 <= DecisionReads(st, cfg, id, t0, true)
                else st' == st)
  {
  }

  lemma RejectRowKeeps(room: Room, d: Desk, id: nat)
    requires DeskOk(room, d) && Monotone(room.clock)
    ensures var (d', ok) := RejectRow(room, d, id);
            && DeskOk(room, d') && Later(room, d, d') && d'.windows == d.windows
            && d'.facts == d.facts
            && (if ok then ClosedRow(d, d', id) else d'.store == d.store)
  {
    hide Reject, DecisionReads, StateAt, StoreOk, UndoOk, Evolves;
    var (d', ok) := RejectRow(room, d, id);
    var t0, t1 := room.clock(d.tick), room.clock(d.tick + 1);
    RejectedRow(d.store, room.cfg, id, t0, t1);
    RejectKeeps(d.store, room.cfg, id, t0, t0, t1);
    if ok {
      EvolvesStretched(d.store, t0, t0, d'.store, t1, room.clock(d'.tick), room.cfg);
      CloseKeeps(room, d, d', id);
    } else {
      IdleKeeps(room, d, d');
    }
  }

  lemma RevokedRow(st: Store, cfg: Config, id: nat, t0: Time, t1: Time)
    ensures var (st', r) := Revoke(st, cfg, id, t0, t1);
            && (r.Ok? <==>
                  id in st.rows &&
                  (StateAt(st.rows[id], cfg, t0) == Pending || StateAt(st.rows[id], cfg, t0) == Active))
            && (if r.Ok? then
                  SettledAs(st, st', id, if StateAt(st.rows[id], cfg, t0) == Pending then Rejected else Revoked) &&
                  2 <= RevokeReads(st, cfg, id, t0)
                else st' == st)
  {
  }

  lemma RevokeRowKeeps(room: Room, d: Desk, id: nat)
    requires DeskOk(room, d) && Monotone(room.clock)
    ensures var (d', ok) := RevokeRow(room, d, id);
            && DeskOk(room, d') && Later(room, d, d') && d'.windows == d.windows
            && d'.facts == d.facts
            && (if ok then ClosedRow(d, d', id) else d'.store == d.store)
  {
    hide Revoke, RevokeReads, StateAt, StoreOk, UndoOk, Evolves;
    var (d', ok) := RevokeRow(room, d, id);
    var t0, t1 := room.clock(d.tick), room.clock(d.tick + 1);
    RevokedRow(d.store, room.cfg, id, t0, t1);
    RevokeKeeps(d.store, room.cfg, id, t0, t0, t1);
    if ok {
      EvolvesStretched(d.store, t0, t0, d'.store, t1, room.clock(d'.tick), room.cfg);
      CloseKeeps(room, d, d', id);
    } else {
      IdleKeeps(room, d, d');
    }
  }

  /** No undo of this id was ever armed. */
  ghost predicate NeverArmed(d: Desk, id: nat) {
    && id !in d.windows
    && forall f | f in d.facts :: !(f.Armed? && f.id == id) && !(f.Reopened? && f.from == id)
  }

  lemma LiveNeverArmed(d: Desk, id: nat)
    requires UndoOk(d) && id in d.store.rows && !Settled(d.store.rows[id])
    ensures NeverArmed(d, id)
  {
    assert id in d.windows ==> WindowOk(d, id);
    forall f | f in d.facts ensures !(f.Armed? && f.id == id) && !(f.Reopened? && f.from == id) {
      var j :| 0 <= j < |d.facts| && d.facts[j] == f;
      if f.Armed? {
        assert AboutSettled(d.facts[j], d.store);
      } else if f.Reopened? {
        ReopenedSettled(d.facts, d.store, j);
      }
    }
  }

  lemma ReopenedSettled(facts: seq<Fact>, st: Store, j: nat)
    requires FactsSettled(facts, st) && j < |facts| && ReopenedFine(facts, j) && facts[j].Reopened?
    ensures facts[j].from in st.rows && Settled(st.rows[facts[j].from])
  {
    var i: nat :| UsedInTime(facts, i, j);
    assert i < j;
    assert facts[i].Armed?;
    assert AboutSettled(facts[i], st);
  }

  lemma OnceSnoc(facts: seq<Fact>, f: Fact)
    requires OncePerId(facts)
    requires forall g | g in facts ::
               !(f.Armed? && g.Armed? && g.id == f.id) && !(f.Reopened? && g.Reopened? && g.from == f.from)
    ensures OncePerId(facts + [f])
  {
    var longer := facts + [f];
    forall i, j | 0 <= i < j < |longer|
      ensures !(longer[i].Armed? && longer[j].Armed? && longer[i].id == longer[j].id)
      ensures !(longer[i].Reopened? && longer[j].Reopened? && longer[i].from == longer[j].from)
    {
      assert longer[i] in facts;
    }
  }

  lemma ArmKeeps(room: Room, d: Desk, id: nat)
    requires DeskOk(room, d) && Monotone(room.clock)
    requires id in d.store.rows && Settled(d.store.rows[id]) && NeverArmed(d, id)
    ensures DeskOk(room, Arm(room, d, id)) && Later(room, d, Arm(room, d, id))
  {
    var d' := Arm(room, d, id);
    Passing(room, d, d');
    ArmKeepsUndo(room, d, id);
  }

  lemma ArmKeepsUndo(room: Room, d: Desk, id: nat)
    requires id in d.store.rows && Settled(d.store.rows[id]) && NeverArmed(d, id)
    requires UndoOk(d) && Later(room, d, Arm(room, d, id))
    ensures UndoOk(Arm(room, d, id))
  {
    var d' := Arm(room, d, id);
    var f := Armed(id, room.clock(d.tick + 1));
    ArmWindows(room, d, id);
    ArmedSettled(d.store, id, f.since);
    NotReopened(d.facts, f);
    CountsSnoc(d.facts, f);
    hide ReopenedFine, Evolves, AboutSettled, WindowOk;
    OnceSnoc(d.facts, f);
    FactsSnoc(d, d', f);
  }

  lemma ArmWindows(room: Room, d: Desk, id: nat)
    requires id in d.store.rows && Settled(d.store.rows[id]) && NeverArmed(d, id)
    requires (forall other | other in d.windows :: WindowOk(d, other)) && Later(room, d, Arm(room, d, id))
    ensures forall other | other in Arm(room, d, id).windows :: WindowOk(Arm(room, d, id), other)
    ensures |Arm(room, d, id).windows| == |d.windows| + 1
  {
    var d' := Arm(room, d, id);
    var f := Armed(id, room.clock(d.tick + 1));
    assert d'.facts[|d.facts|] == f;
    forall other | other in d'.windows ensures WindowOk(d', other) {
      if other != id {
        hide Evolves;
        WindowLater(room, d, d', other);
      }
    }
  }

  lemma ArmedSettled(st: Store, id: nat, since: Time)
    requires id in st.rows && Settled(st.rows[id])
    ensures AboutSettled(Armed(id, since), st)
  {
  }

  lemma NotReopened(facts: seq<Fact>, f: Fact)
    requires !f.Reopened?
    ensures ReopenedFine(facts + [f], |facts|)
  {
  }

  lemma FactsSnoc(d: Desk, d': Desk, f: Fact)
    requires UndoOk(d) && d'.facts == d.facts + [f] && d'.store == d.store && AboutSettled(f, d.store)
    requires ReopenedFine(d'.facts, |d.facts|)
    ensures FactsSettled(d'.facts, d'.store) && forall j | 0 <= j < |d'.facts| :: ReopenedFine(d'.facts, j)
  {
    forall i | 0 <= i < |d'.facts| ensures AboutSettled(d'.facts[i], d'.store) && ReopenedFine(d'.facts, i) {
      if i < |d.facts| {
        ReopenedFineLater(d.facts, f, i);
        assert AboutSettled(d.facts[i], d.store);
      }
    }
  }

  /** One live row was settled in this state, and its undo armed: for the first time, for
      the grace period from the last reading on, and for what the row had asked for. */
  ghost predicate ClosedAndArmed(room: Room, d: Desk, d': Desk, id: nat, state: State) {
    && id in d.store.rows && id in d'.store.rows && d.tick < d'.tick
    && d'.store == Put(d.store, id, d'.store.rows[id]) && d'.store.rows[id].state == state
    && NeverArmed(d, id)
    && var row, now := d.store.rows[id], room.clock(d'.tick - 1);
       && d'.windows == d.windows[id := Window(now + 15_000_000, row.instance, row.reason, row.items)]
       && d'.facts == d.facts + [Armed(id, now)]
  }

  predicate Untouched(d: Desk, d': Desk) {
    d'.store == d.store && d'.windows == d.windows && d'.facts == d.facts
  }

  /** The row's effective state at the desk's next reading. */
  predicate StandsAt(room: Room, d: Desk, id: nat, state: State) {
    id in d.store.rows && StateAt(d.store.rows[id], room.cfg, room.clock(d.tick)) == state
  }

  lemma ArmedAfter(room: Room, d: Desk, d1: Desk, id: nat, state: State)
    requires DeskOk(room, d) && id in d.store.rows && !Settled(d.store.rows[id])
    requires id in d1.store.rows && d1.store == Put(d.store, id, d1.store.rows[id]) && d1.store.rows[id].state == state
    requires d.tick <= d1.tick && d1.windows == d.windows && d1.facts == d.facts
    requires d1.store.rows[id].instance == d.store.rows[id].instance
    requires d1.store.rows[id].reason == d.store.rows[id].reason && d1.store.rows[id].items == d.store.rows[id].items
    ensures ClosedAndArmed(room, d, Arm(room, d1, id), id, state)
  {
    LiveNeverArmed(d, id);
  }

  /** reject takes effect exactly on a number that is still open, and arms its undo. */
  lemma RejectReqKeeps(room: Room, d: Desk, id: nat)
    requires DeskOk(room, d) && Monotone(room.clock)
    ensures var d' := RejectReq(room, d, id);
            && DeskOk(room, d') && Later(room, d, d')
            && (if StandsAt(room, d, id, Pending) then ClosedAndArmed(room, d, d', id, Rejected) else Untouched(d, d'))
  {
    var (d1, ok) := RejectRow(room, d, id);
    RejectRowKeeps(room, d, id);
    RejectedRow(d.store, room.cfg, id, room.clock(d.tick), room.clock(d.tick + 1));
    if ok {
      hide RejectRow, Reject, StateAt;
      ArmedAfter(room, d, d1, id, Rejected);
      ArmKeeps(room, d1, id);
      LaterTwice(room, d, d1, Arm(room, d1, id));
    }
  }

  /** revoke takes effect exactly on a number that is open or granted, and arms its undo. */
  lemma RevokeReqKeeps(room: Room, d: Desk, id: nat)
    requires DeskOk(room, d) && Monotone(room.clock)
    ensures var d' := RevokeReq(room, d, id);
            && DeskOk(room, d') && Later(room, d, d')
            && (if StandsAt(room, d, id, Pending) then ClosedAndArmed(room, d, d', id, Rejected)
                else if StandsAt(room, d, id, Active) then ClosedAndArmed(room, d, d', id, Revoked)
                else Untouched(d, d'))
  {
    var (d1, ok) := RevokeRow(room, d, id);
    RevokeRowKeeps(room, d, id);
    RevokedRow(d.store, room.cfg, id, room.clock(d.tick), room.clock(d.tick + 1));
    if ok {
      hide RevokeRow, Revoke, StateAt;
      ArmedAfter(room, d, d1, id, d1.store.rows[id].state);
      ArmKeeps(room, d1, id);
      LaterTwice(room, d, d1, Arm(room, d1, id));
    }
  }

  lemma ApprovedRow(st: Store, cfg: Config, id: nat, expiry: Option<string>, numbers: Option<seq<int>>, t0: Time,
                    t1: Time)
    requires StoreOk(st, cfg) && Approve(st, cfg, id, expiry, numbers, t0, t1).1.Ok? && t0 <= t1
    ensures var st' := Approve(st, cfg, id, expiry, numbers, t0, t1).0;
            && id in st.rows && st.rows[id].state == Pending
            && id in st'.rows && st'.rows == st.rows[id := st'.rows[id]]
            && st'.rows[id].instance == st.rows[id].instance
            && (st'.rows[id].state == Active || Settled(st'.rows[id]))
            && (st'.rows[id].state == Active ==> st'.rows[id].decidedAt == Some(t1) && st'.rows[id].expiresAt.Some?)
            && forall it | it in st'.rows[id].items :: it in st.rows[id].items
  {
    ApproveKeeps(st, cfg, id, expiry, numbers, t0, t0, t1);
    var st' := Approve(st, cfg, id, expiry, numbers, t0, t1).0;
    assert RowEvolves(st.rows[id], t0, st'.rows[id], t1, cfg);
  }

  lemma RefusedApproval(st: Store, cfg: Config, id: nat, expiry: Option<string>, numbers: Option<seq<int>>, t0: Time,
                        t1: Time)
    requires Approve(st, cfg, id, expiry, numbers, t0, t1).1.Err?
    ensures Approve(st, cfg, id, expiry, numbers, t0, t1).0 == st
  {
  }

  lemma ApproveReqKeeps(room: Room, d: Desk, id: nat, items: Option<seq<nat>>, expiry: Option<string>)
    requires DeskOk(room, d) && Monotone(room.clock)
    ensures var d' := ApproveReq(room, d, id, items, expiry);
            DeskOk(room, d') && Later(room, d, d') && d'.windows == d.windows && d'.facts == d.facts
  {
    hide UndoOk, StoreOk, Evolves, StateAt, Approve, RowEvolves, Replies.ParseExpiry;
    var d' := ApproveReq(room, d, id, items, expiry);
    var t0, t1 := room.clock(d.tick), room.clock(d.tick + 1);
    if Approve(d.store, room.cfg, id, expiry, items, t0, t1).1.Ok? {
      ApproveKeeps(d.store, room.cfg, id, expiry, items, t0, t0, t1);
      ApprovedReads(d.store, room.cfg, id, expiry, items, t0, t1);
      EvolvesStretched(d.store, t0, t0, d'.store, t1, room.clock(d'.tick), room.cfg);
      UndoStays(room, d, d');
    } else {
      RefusedApproval(d.store, room.cfg, id, expiry, items, t0, t1);
      IdleKeeps(room, d, d');
    }
  }

  lemma ApprovedReads(st: Store, cfg: Config, id: nat, expiry: Option<string>, numbers: Option<seq<int>>, t0: Time,
                      t1: Time)
    requires Approve(st, cfg, id, expiry, numbers, t0, t1).1.Ok?
    ensures DecisionReads(st, cfg, id, t0, true) == 3
  {
  }

  lemma DeliverKeeps(room: Room, d: Desk, id: nat, post: Post, rollback: bool)
    requires DeskOk(room, d) && Monotone(room.clock) && id in d.store.rows
    ensures DeskOk(room, Deliver(room, d, id, post, rollback)) && Later(room, d, Deliver(room, d, id, post, rollback))
  {
    hide DeskOk, Later, PostReq, RejectRow;
    var (d1, p) := PostReq(d, id, post);
    PostKeeps(room, d, id, post);
    if p.Undelivered? && rollback {
      RejectRowKeeps(room, d1, id);
      LaterTwice(room, d, d1, RejectRow(room, d1, id).0);
    }
  }

  // --------------------------------------------------------- mass revocation

  lemma {:induction false} RevokeEachKeeps(room: Room, d: Desk, recs: seq<GrantRecord>)
    requires DeskOk(room, d) && Monotone(room.clock)
    ensures DeskOk(room, RevokeEach(room, d, recs).0) && Later(room, d, RevokeEach(room, d, recs).0)
    decreases |recs|
  {
    hide DeskOk, Later, RevokeRow;
    if recs == [] {
      DeskLaterSelf(room, d);
    } else {
      var n := |recs| - 1;
      var d1 := RevokeEach(room, d, recs[..n]).0;
      RevokeEachKeeps(room, d, recs[..n]);
      RevokeRowKeeps(room, d1, recs[n].id);
      LaterTwice(room, d, d1, RevokeRow(room, d1, recs[n].id).0);
    }
  }

  lemma DeskLaterSelf(room: Room, d: Desk)
    ensures Later(room, d, d)
  {
    EvolvesReflexive(d.store, room.clock(d.tick), room.clock(d.tick), room.cfg);
  }

  predicate RowRevoked(row: Row, row': Row) { row' == row.(state := Revoked, source := Revocation) }

  /** The row was effective-active at one of the readings lo..hi. */
  ghost predicate WasActive(room: Room, row: Row, lo: nat, hi: nat) {
    exists k: nat | lo <= k < hi :: StateAt(row, room.cfg, room.clock(k)) == Active
  }

  predicate Ascending(ids: seq<nat>) { forall i, j | 0 <= i < j < |ids| :: ids[i] < ids[j] }

  /** The ids are exactly the rows that moved from active to revoked; no other row moved. */
  ghost predicate RevokedExactly(room: Room, d: Desk, d': Desk, ids: seq<nat>) {
    && d'.store.rows.Keys == d.store.rows.Keys && d'.store.nextId == d.store.nextId && d'.store.posted == d.store.posted
    && Ascending(ids)
    && (forall id | id in ids ::
          id in d.store.rows && RowRevoked(d.store.rows[id], d'.store.rows[id]) && d.store.rows[id].state == Active &&
          WasActive(room, d.store.rows[id], d.tick, d'.tick))
    && (forall id | id in d.store.rows && id !in ids :: d'.store.rows[id] == d.store.rows[id])
  }

  /** From reading k on the row is not effective-active. */
  ghost predicate NeverActiveFrom(room: Room, row: Row, k: nat) {
    forall t | room.clock(k) <= t :: StateAt(row, room.cfg, t) != Active
  }

  lemma RevokeOne(room: Room, d: Desk, id: nat)
    requires Monotone(room.clock) && id in d.store.rows && d.store.rows[id].state == Active
    ensures var (d', ok) := RevokeRow(room, d, id);
            && d.tick < d'.tick && d'.store.nextId == d.store.nextId && d'.store.posted == d.store.posted
            && NeverActiveFrom(room, d'.store.rows[id], d'.tick)
            && (if ok then
                  d'.store.rows == d.store.rows[id := d'.store.rows[id]] &&
                  RowRevoked(d.store.rows[id], d'.store.rows[id]) &&
                  StateAt(d.store.rows[id], room.cfg, room.clock(d.tick)) == Active
                else d'.store == d.store)
  {
  }

  ghost predicate AllDone(room: Room, d': Desk, recs: seq<GrantRecord>) {
    forall r | r in recs :: r.id in d'.store.rows && NeverActiveFrom(room, d'.store.rows[r.id], d'.tick)
  }

  lemma NeverActiveLater(room: Room, row: Row, k: nat, k': nat)
    requires Monotone(room.clock) && k <= k' && NeverActiveFrom(room, row, k)
    ensures NeverActiveFrom(room, row, k')
  {
  }

  ghost predicate RevocableAll(d: Desk, recs: seq<GrantRecord>) {
    Increasing(recs) && forall r | r in recs :: r.id in d.store.rows && d.store.rows[r.id].state == Active
  }

  lemma WasActiveLonger(room: Room, row: Row, lo: nat, hi: nat, lo': nat, hi': nat)
    requires WasActive(room, row, lo, hi) && lo' <= lo && hi <= hi'
    ensures WasActive(room, row, lo', hi')
  {
  }

  lemma RevokedSnoc(room: Room, d: Desk, d1: Desk, ids: seq<nat>, id: nat)
    requires Monotone(room.clock) && RevokedExactly(room, d, d1, ids) && d.tick <= d1.tick
    requires id in d.store.rows && d.store.rows[id].state == Active && forall i | i in ids :: i < id
    ensures var (d2, ok) := RevokeRow(room, d1, id);
            RevokedExactly(room, d, d2, if ok then ids + [id] else ids) && d1.tick <= d2.tick &&
            id in d2.store.rows && NeverActiveFrom(room, d2.store.rows[id], d2.tick) &&
            forall other | other in d1.store.rows && other != id ::
              other in d2.store.rows && d2.store.rows[other] == d1.store.rows[other]
  {
    assert id !in ids;
    var (d2, ok) := RevokeRow(room, d1, id);
    RevokeOne(room, d1, id);
    hide RevokeRow;
    forall i | i in ids ensures WasActive(room, d.store.rows[i], d.tick, d2.tick) {
      WasActiveLonger(room, d.store.rows[i], d.tick, d1.tick, d.tick, d2.tick);
    }
    if ok {
      assert d.tick <= d1.tick < d2.tick && StateAt(d.store.rows[id], room.cfg, room.clock(d1.tick)) == Active;
      assert WasActive(room, d.store.rows[id], d.tick, d2.tick);
      var longer := ids + [id];
      forall a, b | 0 <= a < b < |longer| ensures longer[a] < longer[b] {
        assert longer[a] in ids;
      }
      assert Ascending(longer);
      assert d2.store.rows.Keys == d.store.rows.Keys;
      forall i | i in longer
        ensures i in d.store.rows && RowRevoked(d.store.rows[i], d2.store.rows[i]) && WasActive(room,
              d.store.rows[i], d.tick, d2.tick)
      {
      }
    }
  }

  lemma ListedBefore(recs: seq<GrantRecord>, id: nat)
    requires recs != [] && Increasing(recs) && Listed(recs[..|recs| - 1], id)
    ensures id < recs[|recs| - 1].id && Listed(recs, id)
  {
    var n := |recs| - 1;
    var i :| 0 <= i < n && recs[i].id == id;
    assert recs[i] in recs;
  }

  lemma RevokedNone(room: Room, d: Desk)
    ensures RevokedExactly(room, d, d, []) && AllDone(room, d, [])
  {
  }

  lemma {:induction false} RevokeEachMeaning(room: Room, d: Desk, recs: seq<GrantRecord>)
    requires Monotone(room.clock) && RevocableAll(d, recs)
    ensures var (d', ids) := RevokeEach(room, d, recs);
            && d.tick <= d'.tick && RevokedExactly(room, d, d', ids) && AllDone(room, d', recs)
            && forall id | id in ids :: Listed(recs, id)
    decreases |recs|
  {
    hide RevokeRow, StateAt, RevokedExactly, NeverActiveFrom, AllDone, RevocableAll, Listed;
    if recs == [] {
      RevokedNone(room, d);
    } else {
      var n := |recs| - 1;
      var (d1, ids) := RevokeEach(room, d, recs[..n]);
      RevocableInit(d, recs);
      RevokeEachMeaning(room, d, recs[..n]);
      forall i | i in ids ensures i < recs[n].id && Listed(recs, i) {
        ListedBefore(recs, i);
      }
      RevokedSnoc(room, d, d1, ids, recs[n].id);
      DoneSnoc(room, d1, RevokeRow(room, d1, recs[n].id).0, recs[..n], recs[n]);
      assert recs[..n] + [recs[n]] == recs;
    }
  }

  lemma RevocableInit(d: Desk, recs: seq<GrantRecord>)
    requires RevocableAll(d, recs) && recs != []
    ensures var n := |recs| - 1;
            RevocableAll(d, recs[..n]) && Increasing(recs) && recs[n].id in d.store.rows &&
            d.store.rows[recs[n].id].state == Active && Listed(recs, recs[n].id)
  {
    var n := |recs| - 1;
    assert recs[n] in recs && forall r | r in recs[..n] :: r in recs;
  }

  lemma DoneSnoc(room: Room, d1: Desk, d2: Desk, recs: seq<GrantRecord>, last: GrantRecord)
    requires Monotone(room.clock) && AllDone(room, d1, recs) && d1.tick <= d2.tick
    requires last.id in d2.store.rows && NeverActiveFrom(room, d2.store.rows[last.id], d2.tick)
    requires forall id | id in d1.store.rows && id != last.id ::
               id in d2.store.rows && d2.store.rows[id] == d1.store.rows[id]
    ensures AllDone(room, d2, recs + [last])
  {
    hide NeverActiveFrom;
    forall r | r in recs + [last] ensures r.id in d2.store.rows && NeverActiveFrom(room, d2.store.rows[r.id], d2.tick) {
      if r.id != last.id {
        NeverActiveLater(room, d1.store.rows[r.id], d1.tick, d2.tick);
      }
    }
  }

  /** After a mass revocation nothing on the instance is effective-active again, rows of
      other instances are untouched, and the reported ids are, in order and without
      repeats, exactly the rows that moved from active to revoked: also when grants
      expire while the loop runs. */
  lemma RevokeManyMeaning(room: Room, d: Desk, instance: Option<string>)
    requires Monotone(room.clock) && StoreOk(d.store, room.cfg)
    ensures var (d', ids) := RevokeMany(room, d, instance);
            && RevokedExactly(room, d, d', ids)
            && (forall id | id in ids :: Candidate(d.store.rows[id], instance))
            && (forall id | id in d'.store.rows && (instance.Some? ==> d'.store.rows[id].instance == instance.value) ::
                  NeverActiveFrom(room, d'.store.rows[id], d'.tick))
  {
    var (recs, k) := ActiveGrants(d.store, room.cfg, instance, room.clock, d.tick);
    ActiveGrantsMeaning(d.store, room.cfg, instance, room.clock, d.tick);
    var d1 := d.(tick := k);
    forall r | r in recs ensures r.id in d.store.rows && Candidate(d.store.rows[r.id], instance) {
      assert SeenAt(r, d.store, room.cfg, room.clock, d.tick, k);
    }
    RevokeEachMeaning(room, d1, recs);
    var (d', ids) := RevokeEach(room, d1, recs);
    forall id | id in ids ensures WasActive(room, d.store.rows[id], d.tick, d'.tick) && Candidate(d.store.rows[id],
          instance) {
      WasActiveLonger(room, d.store.rows[id], k, d'.tick, d.tick, d'.tick);
    }
    forall id | id in d'.store.rows && (instance.Some? ==> d'.store.rows[id].instance == instance.value)
      ensures NeverActiveFrom(room, d'.store.rows[id], d'.tick)
    {
      UnlistedNeverActive(room, d, d', recs, k, instance, id);
    }
  }

  lemma UnlistedNeverActive(room: Room, d: Desk, d': Desk, recs: seq<GrantRecord>, k: nat, instance: Option<string>,
                            id: nat)
    requires Monotone(room.clock) && Lists(recs, k, d.store, room.cfg, instance, 1, room.clock, d.tick) && k <= d'.tick
    requires AllDone(room, d', recs) && id in d.store.rows && id in d'.store.rows && 1 <= id
    requires !Listed(recs, id) ==> d'.store.rows[id] == d.store.rows[id]
    requires instance.Some? ==> d.store.rows[id].instance == instance.value
    ensures NeverActiveFrom(room, d'.store.rows[id], d'.tick)
  {
    if Listed(recs, id) {
      var r :| r in recs && r.id == id;
    } else if Candidate(d.store.rows[id], instance) {
      assert StateAt(d.store.rows[id], room.cfg, room.clock(k)) != Active;
    }
  }

  lemma RevokeManyKeeps(room: Room, d: Desk, instance: Option<string>)
    requires DeskOk(room, d) && Monotone(room.clock)
    ensures var (d', ids) := RevokeMany(room, d, instance);
            DeskOk(room, d') && Later(room, d, d')
  {
    var (recs, k) := ActiveGrants(d.store, room.cfg, instance, room.clock, d.tick);
    ActiveGrantsMeaning(d.store, room.cfg, instance, room.clock, d.tick);
    hide DeskOk, Later, RevokeEach, ActiveGrants;
    var d1 := d.(tick := k);
    IdleKeeps(room, d, d1);
    RevokeEachKeeps(room, d1, recs);
    LaterTwice(room, d, d1, RevokeEach(room, d1, recs).0);
  }

  // ------------------------------------------------------------------- undo

  lemma ItemAgain(it: Item)
    requires ItemOk(it) && Normalize(it.path).Some?
    ensures Normalize(it.path) == Some(it.path) <==> NoEscape(it.path)
  {
    var raw :| Normalize(raw) == Some(it.path);
    NormalizeAgain(raw);
  }

  /** Asking again for stored items: when that is accepted, and when it is for the same. */
  lemma {:induction false} RawClean(items: seq<Item>)
    requires forall it | it in items :: ItemOk(it)
    ensures CleanItems(Raw(items)).Ok? <==> forall it | it in items :: Normalize(it.path).Some?
    ensures CleanItems(Raw(items)).Ok? ==>
              (CleanItems(Raw(items)).value == items <==> forall it | it in items :: NoEscape(it.path))
  {
    hide Normalize, NoEscape;
    if items != [] {
      var head, rest := items[0], items[1..];
      assert head in items && items == [head] + rest;
      RawClean(rest);
      assert Raw(items)[1..] == Raw(rest);
      if Normalize(head.path).Some? {
        ItemAgain(head);
      }
      if CleanItems(Raw(items)).Ok? {
        var clean := CleanItems(Raw(items)).value;
        assert clean == [Item(Normalize(head.path).value, head.mode)] + CleanItems(Raw(rest)).value;
        assert clean == items <==> clean[0] == head && clean[1..] == rest;
      }
    }
  }

  function Popped(d: Desk, id: nat): Desk { d.(windows := d.windows - {id}, tick := d.tick + 1) }

  lemma PopKeeps(room: Room, d: Desk, id: nat)
    requires DeskOk(room, d) && Monotone(room.clock) && id in d.windows
    ensures DeskOk(room, Popped(d, id)) && Later(room, d, Popped(d, id))
    ensures CountReopened(d.facts) + |Popped(d, id).windows| + 1 <= CountArmed(d.facts)
  {
    hide StoreOk, Evolves, ReopenedFine, OncePerId, FactsSettled;
    var d1 := Popped(d, id);
    Passing(room, d, d1);
    assert d.windows == d1.windows[id := d.windows[id]];
    forall other | other in d1.windows ensures WindowOk(d1, other) {
      WindowLater(room, d, d1, other);
    }
  }

  function Noted(d: Desk, f: Fact): Desk { d.(facts := d.facts + [f]) }

  /** The window was armed by a fact, in time, and not used before. */
  ghost predicate Usable(facts: seq<Fact>, from: nat, at: Time) {
    && (exists i: nat :: i < |facts| && facts[i].Armed? && facts[i].id == from && at < facts[i].since + UNDO_GRACE)
    && forall f | f in facts :: !(f.Reopened? && f.from == from)
  }

  lemma ReopenKeeps(room: Room, d: Desk, from: nat, id: nat, at: Time)
    requires DeskOk(room, d) && Monotone(room.clock)
    requires d.facts != [] && d.facts[|d.facts| - 1].Asked? && d.facts[|d.facts| - 1].id == id && from < id
    requires Usable(d.facts, from, at) && from !in d.windows
    requires CountReopened(d.facts) + |d.windows| + 1 <= CountArmed(d.facts)
    ensures DeskOk(room, Noted(d, Reopened(from, id, at))) && Later(room, d, Noted(d, Reopened(from, id, at)))
  {
    var f := Reopened(from, id, at);
    var d' := Noted(d, f);
    var n := |d.facts|;
    Passing(room, d, d');
    hide StoreOk, Evolves;
    ReopenKeepsUndo(room, d, from, id, at);
  }

  lemma ReopenedNow(facts: seq<Fact>, from: nat, id: nat, at: Time)
    requires facts != [] && facts[|facts| - 1].Asked? && facts[|facts| - 1].id == id && from < id
    requires Usable(facts, from, at)
    ensures ReopenedFine(facts + [Reopened(from, id, at)], |facts|)
  {
    var longer, n := facts + [Reopened(from, id, at)], |facts|;
    var i: nat :| i < n && facts[i].Armed? && facts[i].id == from && at < facts[i].since + UNDO_GRACE;
    assert UsedInTime(longer, i, n);
  }

  lemma ReopenKeepsUndo(room: Room, d: Desk, from: nat, id: nat, at: Time)
    requires UndoOk(d) && Later(room, d, Noted(d, Reopened(from, id, at)))
    requires d.facts != [] && d.facts[|d.facts| - 1].Asked? && d.facts[|d.facts| - 1].id == id && from < id
    requires Usable(d.facts, from, at) && from !in d.windows
    requires CountReopened(d.facts) + |d.windows| + 1 <= CountArmed(d.facts)
    ensures UndoOk(Noted(d, Reopened(from, id, at)))
  {
    hide Evolves, ReopenedFine;
    var f := Reopened(from, id, at);
    var d' := Noted(d, f);
    CountsSnoc(d.facts, f);
    OnceSnoc(d.facts, f);
    ReopenedNow(d.facts, from, id, at);
    FactsSnoc(d, d', f);
    forall other | other in d'.windows ensures WindowOk(d', other) {
      WindowLater(room, d, d', other);
    }
  }

  lemma WindowUsable(d: Desk, id: nat, at: Time, asked: Fact)
    requires id in d.windows && WindowOk(d, id) && at < d.windows[id].deadline && asked.Asked?
    ensures Usable(d.facts + [asked], id, at)
  {
    var since := d.windows[id].deadline - UNDO_GRACE;
    var i :| 0 <= i < |d.facts| && d.facts[i] == Armed(id, since);
    assert (d.facts + [asked])[i] == Armed(id, since);
  }

  lemma UndoReqKeeps(room: Room, d: Desk, id: nat, post: Post)
    requires DeskOk(room, d) && Monotone(room.clock)
    ensures DeskOk(room, UndoReq(room, d, id, post).0) && Later(room, d, UndoReq(room, d, id, post).0)
  {
    hide DeskOk, Later, AskFor, PostReq, WindowOk;
    if id !in d.windows {
      DeskLaterSelf(room, d);
    } else {
      var w, now, d1 := d.windows[id], room.clock(d.tick), Popped(d, id);
      PopKeeps(room, d, id);
      if now < w.deadline {
        var items := Raw(w.items);
        var (d2, r) := AskFor(room, d1, w.instance, w.reason, items);
        AskKeeps(room, d1, w.instance, w.reason, items);
        LaterTwice(room, d, d1, d2);
        if r.Ok? {
          ReopenPosts(room, d, d1, d2, id, r.value, now, post);
        }
      }
    }
  }

  lemma ReopenPosts(room: Room, d: Desk, d1: Desk, d2: Desk, from: nat, id: nat, now: Time, post: Post)
    requires DeskOk(room, d) && DeskOk(room, d2) && Monotone(room.clock) && from in d.windows &&
          now < d.windows[from].deadline
    requires d1 == Popped(d, from) && Later(room, d, d2) && d2.windows == d1.windows
    requires CountReopened(d.facts) + |d1.windows| + 1 <= CountArmed(d.facts)
    requires id == d.store.nextId && id in d2.store.rows
    requires exists asked: Fact :: asked.Asked? && asked.id == id && d2.facts == d.facts + [asked]
    ensures var d' := PostReq(Noted(d2, Reopened(from, id, now)), id, post).0;
            DeskOk(room, d') && Later(room, d, d')
  {
    hide StoreOk, Evolves;
    var asked: Fact :| asked.Asked? && asked.id == id && d2.facts == d.facts + [asked];
    WindowUsable(d, from, now, asked);
    CountsSnoc(d.facts, asked);
    WindowIdSmall(room, d, from);
    ReopenKeeps(room, d2, from, id, now);
    var d3 := Noted(d2, Reopened(from, id, now));
    PostKeeps(room, d3, id, post);
    LaterTwice(room, d, d2, d3);
    LaterTwice(room, d, d3, PostReq(d3, id, post).0);
  }

  lemma WindowIdSmall(room: Room, d: Desk, id: nat)
    requires DeskOk(room, d) && id in d.windows
    ensures WindowOk(d, id) && id in d.store.rows && id < d.store.nextId && RowOk(d.store.rows[id], room.cfg)
  {
    assert WindowOk(d, id);
  }

  lemma UndoOpen(room: Room, d: Desk, id: nat, post: Post)
    requires DeskOk(room, d) && Monotone(room.clock)
    requires id in d.windows && room.clock(d.tick) < d.windows[id].deadline
    ensures var (d', r) := UndoReq(room, d, id, post);
            && d'.windows == d.windows - {id} && (r.None? ==> d'.store == d.store)
            && (r.Some? <==> forall it | it in d.windows[id].items :: Normalize(it.path).Some?)
  {
    hide Create, CleanItems, Normalize, Later, PostReq, AskFor, DeskOk, UndoReq;
    var w, d1 := d.windows[id], Popped(d, id);
    WindowAgain(room, d, id, room.clock(d1.tick));
    UndoVia(room, d, id, post);
    AskAccepted(room, d1, w.instance, w.reason, Raw(w.items));
    PopKeeps(room, d, id);
    AskKeeps(room, d1, w.instance, w.reason, Raw(w.items));
    var (d2, r) := AskFor(room, d1, w.instance, w.reason, Raw(w.items));
    if r.Ok? {
      PostRows(Noted(d2, Reopened(id, r.value, room.clock(d.tick))), r.value, post);
    }
  }

  /** Undo succeeds exactly when a window is armed and open and every path still
      normalizes; the window is gone either way, and a refusal changes no row. */
  lemma UndoSucceeds(room: Room, d: Desk, id: nat, post: Post)
    requires DeskOk(room, d) && Monotone(room.clock)
    ensures var (d', r) := UndoReq(room, d, id, post);
            && d'.windows == d.windows - {id}
            && (r.None? ==> d'.store == d.store)
            && (r.Some? <==> id in d.windows && room.clock(d.tick) < d.windows[id].deadline &&
                             forall it | it in d.windows[id].items :: Normalize(it.path).Some?)
  {
    hide AskFor, PostReq, Normalize, DeskOk;
    if id in d.windows && room.clock(d.tick) < d.windows[id].deadline {
      UndoOpen(room, d, id, post);
    }
  }

  lemma PostRows(d: Desk, id: nat, post: Post)
    ensures PostReq(d, id, post).0.store.rows == d.store.rows && PostReq(d, id, post).0.windows == d.windows
  {
  }

  /** Undo never revives a number: it creates one pending request with the next number and
      the decided record's instance, reason and items, each path normalized once more: the
      same items exactly if no path has an escape left. Every other row is untouched. */
  lemma UndoCreates(room: Room, d: Desk, id: nat, post: Post)
    requires DeskOk(room, d) && Monotone(room.clock) && UndoReq(room, d, id, post).1.Some?
    ensures var (d', r) := UndoReq(room, d, id, post);
            && id in d.store.rows && id < r.value == d.store.nextId && r.value in d'.store.rows
            && d'.store.rows == d.store.rows[r.value := d'.store.rows[r.value]]
            && var decided, row := d.store.rows[id], d'.store.rows[r.value];
               && Settled(decided) && row.state == Pending
               && row.instance == decided.instance && row.reason == decided.reason
               && CleanItems(Raw(decided.items)) == Ok(row.items)
               && (row.items == decided.items <==> forall it | it in decided.items :: NoEscape(it.path))
  {
    assert id in d.windows && room.clock(d.tick) < d.windows[id].deadline;
    WindowAgain(room, d, id, room.clock(d.tick + 1));
    UndoVia(room, d, id, post);
    var w, d1 := d.windows[id], Popped(d, id);
    hide DeskOk, Later, CleanItems, PostReq, UndoReq, AskFor;
    PopKeeps(room, d, id);
    AskKeeps(room, d1, w.instance, w.reason, Raw(w.items));
    var (d2, r) := AskFor(room, d1, w.instance, w.reason, Raw(w.items));
    PostRows(Noted(d2, Reopened(id, r.value, room.clock(d.tick))), r.value, post);
  }

  /** What undo does while the window is open. */
  lemma UndoVia(room: Room, d: Desk, id: nat, post: Post)
    requires id in d.windows && room.clock(d.tick) < d.windows[id].deadline
    ensures var w := d.windows[id];
            var (d2, r) := AskFor(room, Popped(d, id), w.instance, w.reason, Raw(w.items));
            UndoReq(room, d, id, post) ==
            if r.Err? then (d2, None)
            else (PostReq(Noted(d2, Reopened(id, r.value, room.clock(d.tick))), r.value, post).0, Some(r.value))
  {
    hide AskFor, PostReq;
  }

  lemma AskAccepted(room: Room, d: Desk, instance: string, reason: string, items: seq<RawItem>)
    ensures var (st, r) := Create(d.store, room.cfg, instance, reason, items, room.clock(d.tick));
            AskFor(room, d, instance, reason, items).1 == r &&
            (r.Err? ==> AskFor(room, d, instance, reason, items).0.store == d.store)
  {
  }

  /** A window asks for what its settled row asked for. */
  lemma WindowAgain(room: Room, d: Desk, id: nat, t: Time)
    requires DeskOk(room, d) && id in d.windows
    ensures var w := d.windows[id];
            && id in d.store.rows && id < d.store.nextId && Settled(d.store.rows[id])
            && w.instance == d.store.rows[id].instance && w.reason == d.store.rows[id].reason
            && w.items == d.store.rows[id].items && Texts.Strip(w.reason) == w.reason
            && (Create(d.store, room.cfg, w.instance, w.reason, Raw(w.items), t).1.Ok? <==>
                forall it | it in w.items :: Normalize(it.path).Some?)
            && (CleanItems(Raw(w.items)).Ok? ==>
                  (CleanItems(Raw(w.items)).value == w.items <==> forall it | it in w.items :: NoEscape(it.path)))
  {
    WindowIdSmall(room, d, id);
    var row := d.store.rows[id];
    RawClean(row.items);
    hide DeskOk, CleanItems, Create;
    CreateAgain(d.store, room.cfg, row, t);
  }

  /** The store accepts a stored row's data again unless a path no longer normalizes. */
  lemma CreateAgain(st: Store, cfg: Config, row: Row, t: Time)
    requires RowOk(row, cfg)
    ensures Create(st, cfg, row.instance, row.reason, Raw(row.items), t).1.Ok? <==> CleanItems(Raw(row.items)).Ok?
  {
  }

  // ----------------------------------------------------------- everything else

  lemma {:induction false} AnnounceKeeps(room: Room, d: Desk, recs: seq<GrantRecord>, sends: nat)
    requires DeskOk(room, d) && Monotone(room.clock)
    ensures DeskOk(room, Announce(d, recs, sends).0) && Later(room, d, Announce(d, recs, sends).0)
    decreases |recs|
  {
    hide DeskOk, Later;
    DeskLaterSelf(room, d);
    if recs != [] {
      if recs[0].state != Expired || recs[0].id in d.swept {
        AnnounceKeeps(room, d, recs[1..], sends);
      } else if sends > 0 {
        var d1 := d.(swept := d.swept + {recs[0].id});
        IdleKeeps(room, d, d1);
        AnnounceKeeps(room, d1, recs[1..], sends - 1);
        LaterTwice(room, d, d1, Announce(d1, recs[1..], sends - 1).0);
      }
    }
  }

  lemma SweepKeeps(room: Room, d: Desk, sends: nat)
    requires DeskOk(room, d) && Monotone(room.clock)
    ensures DeskOk(room, Sweep(room, d, sends).0) && Later(room, d, Sweep(room, d, sends).0)
  {
    hide DeskOk, Later;
    var (recs, k) := PendingFrom(d.store, room.cfg, 1, room.clock, d.tick);
    PendingFromMeaning(d.store, room.cfg, 1, room.clock, d.tick);
    var d1 := d.(tick := k);
    IdleKeeps(room, d, d1);
    AnnounceKeeps(room, d1, recs, sends);
    LaterTwice(room, d, d1, Announce(d1, recs, sends).0);
  }

  /** What Announce and Sweep do, whatever fails: only the memory of notices grows, by
      exactly the ids noticed, none of them noticed before in this process. */
  ghost predicate NoticedOnce(d: Desk, d': Desk, ids: seq<nat>) {
    && d' == d.(tick := d'.tick, swept := d'.swept)
    && (forall id :: id in d'.swept <==> id in d.swept || id in ids)
    && (forall id | id in ids :: id !in d.swept)
    && (forall i, j | 0 <= i < j < |ids| :: ids[i] != ids[j])
  }

  lemma {:induction false} AnnounceOnce(d: Desk, recs: seq<GrantRecord>, sends: nat)
    ensures NoticedOnce(d, Announce(d, recs, sends).0, Announce(d, recs, sends).1)
    ensures forall id | id in Announce(d, recs, sends).1 :: exists r | r in recs :: r.id == id && r.state == Expired
    ensures |Announce(d, recs, sends).1| <= sends && Announce(d, recs, sends).0.tick == d.tick
    ensures |Announce(d, recs, sends).1| < sends ==>
              forall r | r in recs && r.state == Expired :: r.id in Announce(d, recs, sends).0.swept
    decreases |recs|
  {
    if recs != [] {
      var head, rest := recs[0], recs[1..];
      assert head in recs && recs == [head] + rest;
      if head.state != Expired || head.id in d.swept {
        AnnounceOnce(d, rest, sends);
      } else if sends > 0 {
        var d1 := d.(swept := d.swept + {head.id});
        AnnounceOnce(d1, rest, sends - 1);
        var (d', ids) := Announce(d1, rest, sends - 1);
        assert Announce(d, recs, sends) == (d', [head.id] + ids);
      }
    }
  }

  lemma {:induction false} PendingFromMeaning(st: Store, cfg: Config, id: nat, clock: Readings, k: nat)
    ensures var (out, k') := PendingFrom(st, cfg, id, clock, k);
            && k <= k'
            && (forall r | r in out :: SeenAt(r, st, cfg, clock, k, k') && st.rows[r.id].state == Pending)
            && (forall i | i in st.rows && id <= i < st.nextId && st.rows[i].state == Pending :: Listed(out, i))
    decreases st.nextId - id
  {
    if id < st.nextId {
      if id !in st.rows || st.rows[id].state != Pending {
        PendingFromMeaning(st, cfg, id + 1, clock, k);
      } else {
        PendingFromMeaning(st, cfg, id + 1, clock, k + 1);
        var (rest, k') := PendingFrom(st, cfg, id + 1, clock, k + 1);
        var head := RecordAt(id, st.rows[id], cfg, clock(k));
        var out := PendingFrom(st, cfg, id, clock, k).0;
        assert out == [head] + rest && head == RecordAt(head.id, st.rows[head.id], cfg, clock(k));
        forall r | r in out ensures SeenAt(r, st, cfg, clock, k, k') && st.rows[r.id].state == Pending {
          if r in rest {
            SeenLonger(r, st, cfg, clock, k + 1, k', k);
          }
        }
        forall i | i in st.rows && id <= i < st.nextId && st.rows[i].state == Pending ensures Listed(out, i) {
          if i == id {
            assert head in out;
          } else {
            var r :| r in rest && r.id == i;
            assert r in out;
          }
        }
      }
    }
  }

  /** The sweep notices only unanswered requests seen expired, each at most once per
      process, and if the room takes every notice it misses none that was expired when
      the sweep began. Nothing else changes. */
  lemma SweepMeaning(room: Room, d: Desk, sends: nat)
    requires Monotone(room.clock) && StoreOk(d.store, room.cfg)
    ensures var (d', ids) := Sweep(room, d, sends);
            && NoticedOnce(d, d', ids) && d.tick <= d'.tick
            && (forall id | id in ids ::
                  id in d.store.rows && d.store.rows[id].state == Pending &&
                  StateAt(d.store.rows[id], room.cfg, room.clock(d'.tick)) == Expired)
            && (|ids| < sends ==>
                  forall id | id in d.store.rows && d.store.rows[id].state == Pending &&
                              StateAt(d.store.rows[id], room.cfg, room.clock(d.tick)) == Expired :: id in d'.swept)
  {
    hide RowOk, PendingFrom, Announce;
    var (recs, k) := PendingFrom(d.store, room.cfg, 1, room.clock, d.tick);
    PendingFromMeaning(d.store, room.cfg, 1, room.clock, d.tick);
    AnnounceOnce(d.(tick := k), recs, sends);
    var (d', ids) := Announce(d.(tick := k), recs, sends);
    assert d'.tick == k;
    forall id | id in ids
      ensures id in d.store.rows && d.store.rows[id].state == Pending &&
              StateAt(d.store.rows[id], room.cfg, room.clock(k)) == Expired
    {
      var r :| r in recs && r.id == id && r.state == Expired;
      ExpiredSeen(d.store, room, r, d.tick, k);
    }
    forall id | id in d.store.rows && d.store.rows[id].state == Pending &&
                StateAt(d.store.rows[id], room.cfg, room.clock(d.tick)) == Expired && |ids| < sends
      ensures id in d'.swept
    {
      assert 1 <= id < d.store.nextId && Listed(recs, id);
      var r :| r in recs && r.id == id;
      ExpiredSeen(d.store, room, r, d.tick, k);
    }
  }

  /** A pending row once seen expired stays so, and one expired before is seen so. */
  lemma ExpiredSeen(st: Store, room: Room, r: GrantRecord, k: nat, k': nat)
    requires Monotone(room.clock) && SeenAt(r, st, room.cfg, room.clock, k, k') && st.rows[r.id].state == Pending
    ensures r.state == Expired ==> StateAt(st.rows[r.id], room.cfg, room.clock(k')) == Expired
    ensures StateAt(st.rows[r.id], room.cfg, room.clock(k)) == Expired ==> r.state == Expired
  {
  }

  /** A restart closes every window, forgets the notices and rejects every pending row;
      every other row stays. */
  lemma RestartKeeps(room: Room, d: Desk)
    requires DeskOk(room, d) && Monotone(room.clock)
    ensures var d' := Restart(d);
            && DeskOk(room, d') && Later(room, d, d')
            && d'.windows == map[] && d'.swept == {} && d'.facts == d.facts
            && d'.store.rows.Keys == d.store.rows.Keys && d'.store.posted == d.store.posted
            && forall id | id in d.store.rows ::
                 if d.store.rows[id].state == Pending then
                   d'.store.rows[id] == d.store.rows[id].(state := Rejected, source := RestartDiscard)
                 else d'.store.rows[id] == d.store.rows[id]
  {
    var d0 := d.(windows := map[]);
    var d' := Restart(d);
    DiscardKeeps(d.store, room.cfg, room.clock(d.tick));
    UndoStays(room, d0, d'.(swept := d.swept));
  }

  lemma HandleReactionKeeps(room: Room, d: Desk, sender: string, event: string, emoji: string)
    requires DeskOk(room, d) && Monotone(room.clock)
    ensures var d' := HandleReaction(room, d, sender, event, emoji);
            DeskOk(room, d') && Later(room, d, d') && (sender != room.approver ==> d' == d)
  {
    hide DeskOk, Later, ApproveReq, RejectReq, RevokeReq;
    DeskLaterSelf(room, d);
    if event in d.store.posted {
      var id := d.store.posted[event];
      ApproveReqKeeps(room, d, id, None, None);
      RejectReqKeeps(room, d, id);
      RevokeReqKeeps(room, d, id);
    }
  }

  lemma HandleReplyKeeps(room: Room, d: Desk, sender: string, text: string, post: Post)
    requires DeskOk(room, d) && Monotone(room.clock)
    ensures var d' := HandleReply(room, d, sender, text, post);
            DeskOk(room, d') && Later(room, d, d') && (sender != room.approver ==> d' == d)
  {
    hide DeskOk, Later, ApproveReq, RejectReq, RevokeReq, RevokeMany, UndoReq, Replies.ParseReply;
    DeskLaterSelf(room, d);
    match Replies.ParseReply(text)
    case RevokeAll => RevokeManyKeeps(room, d, None);
    case RevokeInstance(name) => RevokeManyKeeps(room, d, Some(name));
    case Undo(id) => UndoReqKeeps(room, d, id, post);
    case Verdict(action, id, items, expiry) =>
      ApproveReqKeeps(room, d, id, items, expiry);
      RejectReqKeeps(room, d, id);
      RevokeReqKeeps(room, d, id);
    case _ =>
  }
}
