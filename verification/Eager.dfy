/** The store's read-time expiry against a machine in which a timer rewrites rows: both
    observe the same states, except that a restart relabels timed-out pending rows. */
module Eager {
  import opened Wrappers
  import opened Clocks
  import opened Paths
  import opened Grants
  import opened Lifecycle
  import Replies
  import Texts

  // -------------------------------------------------------- the eager machine

  /** What the timer makes of a row at time t. */
  function Timed(row: Row, cfg: Config, t: Time): Row {
    row.(state := StateAt(row, cfg, t), source := SourceAt(row, cfg, t))
  }

  function Tick(st: Store, cfg: Config, t: Time): Store {
    st.(rows := map id | id in st.rows :: Timed(st.rows[id], cfg, t))
  }

  /** A decision looks at the stored state only. */
  function EagerDecide(st: Store, cfg: Config, op: Op, t0: Time, t1: Time): (Store, Result<(), StoreError>) {
    match op
    case DoCreate(instance, reason, items) =>
      var (st', r) := Create(st, cfg, instance, reason, items, t0);
      (st', Void(r))
    case DoApprove(id, expiry, numbers) =>
      if id !in st.rows then (st, Err(UnknownId))
      else if st.rows[id].state != Pending then (st, Err(AlreadyDecided(st.rows[id].state)))
      else if Replies.ParseExpiry(expiry).Err? then (st, Err(InvalidExpiry))
      else if Chosen(st.rows[id].items, numbers).Err? then (st, Err(Chosen(st.rows[id].items, numbers).error))
      else
        (Put(st, id, SettledRow(st.rows[id], numbers, Chosen(st.rows[id].items, numbers).value, t1,
                                Duration(cfg, Replies.ParseExpiry(expiry).value))), Ok(()))
    case DoReject(id) =>
      if id !in st.rows then (st, Err(UnknownId))
      else if st.rows[id].state != Pending then (st, Err(AlreadyDecided(st.rows[id].state)))
      else (Put(st, id, st.rows[id].(state := Rejected, decidedAt := Some(t1), source := Rejection)), Ok(()))
    case DoRevoke(id) =>
      if id !in st.rows then (st, Err(UnknownId))
      else if st.rows[id].state == Pending then
        (Put(st, id, st.rows[id].(state := Rejected, decidedAt := Some(t1), source := PendingRevoke)), Ok(()))
      else if st.rows[id].state == Active then
        (Put(st, id, st.rows[id].(state := Revoked, source := Revocation)), Ok(()))
      else (st, Err(AlreadyDecided(st.rows[id].state)))
    case DoRestart => (Discard(st), Ok(()))
  }

  /** The timer fires at both readings of an operation. */
  function EagerApply(st: Store, cfg: Config, op: Op, t0: Time, t1: Time): (Store, Result<(), StoreError>) {
    var (st', r) := EagerDecide(Tick(st, cfg, t0), cfg, op, t0, t1);
    (Tick(st', cfg, t1), r)
  }

  function EagerAfter(cfg: Config, ops: seq<Op>, clock: Readings): Store
    decreases |ops|
  {
    if ops == [] then EMPTY
    else
      var n := |ops| - 1;
      EagerApply(EagerAfter(cfg, ops[..n], clock), cfg, ops[n], clock(2 * n), clock(2 * n + 1)).0
  }

  /** get, from the stored state after the timer has fired. */
  function EagerGet(st: Store, cfg: Config, id: nat, t: Time): Result<GrantRecord, StoreError> {
    if id !in st.rows then Err(UnknownId)
    else
      var row := Timed(st.rows[id], cfg, t);
      Ok(GrantRecord(id, row.instance, row.reason, row.items, row.state, row.expiresAt, row.createdAt, row.source))
  }

  /** Approved once and not revoked. */
  predicate Running(row: Row, instance: Option<string>) {
    (row.state == Active || (row.state == Expired && row.source == GrantExpiry)) &&
    (instance.Some? ==> row.instance == instance.value)
  }

  /** active_grants on stored states, the timer firing at every reading. */
  function EagerActiveFrom(st: Store, cfg: Config, instance: Option<string>, id: nat, clock: Readings, k: nat)
    : (seq<GrantRecord>, nat)
    decreases st.nextId - id
  {
    if id >= st.nextId then ([], k)
    else if id !in st.rows || !Running(st.rows[id], instance) then
      EagerActiveFrom(st, cfg, instance, id + 1, clock, k)
    else
      var (rest, k') := EagerActiveFrom(st, cfg, instance, id + 1, clock, k + 1);
      var rec := EagerGet(st, cfg, id, clock(k)).value;
      (if rec.state == Active then [rec] + rest else rest, k')
  }

  // ------------------------------------------------------------- the relation

  /** The restart rule called a row rejected that the timer had already expired. */
  predicate Relabelled(lazy: Row, eager: Row) {
    && lazy.state == Rejected && lazy.source == RestartDiscard
    && eager == lazy.(state := Expired, source := PendingTimeout)
  }

  predicate RowsAgree(lazy: Row, eager: Row, cfg: Config, t: Time) {
    eager == Timed(lazy, cfg, t) || Relabelled(lazy, eager)
  }

  ghost predicate Agree(lazy: Store, eager: Store, cfg: Config, t: Time) {
    && lazy.nextId == eager.nextId && lazy.posted == eager.posted && lazy.rows.Keys == eager.rows.Keys
    && (forall id | id in lazy.rows :: RowsAgree(lazy.rows[id], eager.rows[id], cfg, t))
  }

  lemma TimedTwice(row: Row, cfg: Config, t: Time, t': Time)
    requires t <= t'
    ensures Timed(Timed(row, cfg, t), cfg, t') == Timed(row, cfg, t')
  {
  }

  lemma TickAgrees(lazy: Store, eager: Store, cfg: Config, t: Time, t': Time)
    requires Agree(lazy, eager, cfg, t) && t <= t'
    ensures Agree(lazy, Tick(eager, cfg, t'), cfg, t')
  {
    forall id | id in lazy.rows
      ensures RowsAgree(lazy.rows[id], Tick(eager, cfg, t').rows[id], cfg, t')
    {
      assert RowsAgree(lazy.rows[id], eager.rows[id], cfg, t);
      TimedTwice(lazy.rows[id], cfg, t, t');
    }
  }

  /** Equal results; two refusals of a decided number may name different states. */
  predicate SameResult(a: Result<(), StoreError>, b: Result<(), StoreError>) {
    a == b || (a.Err? && b.Err? && a.error.AlreadyDecided? && b.error.AlreadyDecided?)
  }

  lemma PutAgrees(lazy: Store, eager: Store, cfg: Config, t: Time, t': Time, id: nat, row: Row)
    requires Agree(lazy, eager, cfg, t) && t <= t'
    ensures Agree(Put(lazy, id, row), Tick(Put(eager, id, row), cfg, t'), cfg, t')
  {
    TickAgrees(lazy, eager, cfg, t, t');
    forall i | i in Put(lazy, id, row).rows
      ensures RowsAgree(Put(lazy, id, row).rows[i], Tick(Put(eager, id, row), cfg, t').rows[i], cfg, t')
    {
      if i != id {
        assert RowsAgree(lazy.rows[i], Tick(eager, cfg, t').rows[i], cfg, t');
      }
    }
  }

  lemma DiscardAgrees(lazy: Store, eager: Store, cfg: Config, t: Time, t': Time)
    requires Agree(lazy, eager, cfg, t) && t <= t'
    ensures Agree(Discard(lazy), Tick(Discard(eager), cfg, t'), cfg, t')
  {
    forall id | id in Discard(lazy).rows
      ensures RowsAgree(Discard(lazy).rows[id], Tick(Discard(eager), cfg, t').rows[id], cfg, t')
    {
      assert RowsAgree(lazy.rows[id], eager.rows[id], cfg, t);
      TimedTwice(lazy.rows[id], cfg, t, t');
    }
  }

  /** On the row a decision is about, pending means the same in both machines. */
  lemma PendingAgrees(lazy: Store, eager: Store, cfg: Config, t: Time, id: nat)
    requires Agree(lazy, eager, cfg, t) && id in lazy.rows
    ensures StateAt(lazy.rows[id], cfg, t) == Pending <==> eager.rows[id].state == Pending
    ensures StateAt(lazy.rows[id], cfg, t) == Active <==> eager.rows[id].state == Active
    ensures eager.rows[id].state == Pending || eager.rows[id].state == Active ==> eager.rows[id] == lazy.rows[id]
  {
    assert RowsAgree(lazy.rows[id], eager.rows[id], cfg, t);
  }

  lemma CreateAgrees(lazy: Store, eager: Store, cfg: Config, op: Op, t0: Time, t1: Time)
    requires op.DoCreate? && Agree(lazy, eager, cfg, t0) && t0 <= t1
    ensures var (l, a) := Apply(lazy, cfg, op, t0, t1);
            var (e, b) := EagerDecide(eager, cfg, op, t0, t1);
            a == b && Agree(l, Tick(e, cfg, t1), cfg, t1)
  {
    TickAgrees(lazy, eager, cfg, t0, t1);
    if CleanItems(op.items).Ok? {
      var row := NewRow(op.instance, Texts.Strip(op.reason), CleanItems(op.items).value, t0);
      PutAgrees(lazy, eager, cfg, t0, t1, lazy.nextId, row);
      var l, e := Put(lazy, lazy.nextId, row), Put(eager, lazy.nextId, row);
      assert Tick(e.(nextId := lazy.nextId + 1), cfg, t1) == Tick(e, cfg, t1).(nextId := lazy.nextId + 1);
      NextIdAgrees(l, Tick(e, cfg, t1), cfg, t1, lazy.nextId + 1);
    }
  }

  lemma NextIdAgrees(lazy: Store, eager: Store, cfg: Config, t: Time, n: nat)
    requires Agree(lazy, eager, cfg, t)
    ensures Agree(lazy.(nextId := n), eager.(nextId := n), cfg, t)
  {
  }

  /** One operation on both sides. */
  lemma ApproveAgrees(lazy: Store, eager: Store, cfg: Config, id: nat, expiry: Option<string>,
                      numbers: Option<seq<int>>, t0: Time, t1: Time)
    requires Agree(lazy, eager, cfg, t0) && t0 <= t1
    ensures var op := DoApprove(id, expiry, numbers);
            var (l, a) := Apply(lazy, cfg, op, t0, t1);
            var (e, b) := EagerDecide(eager, cfg, op, t0, t1);
            SameResult(a, b) && Agree(l, Tick(e, cfg, t1), cfg, t1)
  {
    TickAgrees(lazy, eager, cfg, t0, t1);
    if id in lazy.rows {
      PendingAgrees(lazy, eager, cfg, t0, id);
      if StateAt(lazy.rows[id], cfg, t0) == Pending {
        var row := ApproveBoth(lazy, eager, cfg, id, expiry, numbers, t0, t1);
        hide Approve, EagerDecide, Agree, Tick, StateAt;
        PutAgrees(lazy, eager, cfg, t0, t1, id, row);
      }
    }
  }

  /** On a pending row both machines come to the same result and write the same row. */
  lemma ApproveBoth(lazy: Store, eager: Store, cfg: Config, id: nat, expiry: Option<string>,
                    numbers: Option<seq<int>>, t0: Time, t1: Time)
    returns (row: Row)
    requires id in lazy.rows && id in eager.rows && eager.rows[id] == lazy.rows[id]
    requires StateAt(lazy.rows[id], cfg, t0) == Pending && lazy.rows[id].state == Pending
    ensures var (l, a) := Approve(lazy, cfg, id, expiry, numbers, t0, t1);
            var (e, b) := EagerDecide(eager, cfg, DoApprove(id, expiry, numbers), t0, t1);
            && a == b
            && (if a.Ok? then l == Put(lazy, id, row) && e == Put(eager, id, row) else l == lazy && e == eager)
  {
    hide Replies.ParseExpiry, Chosen, SettledRow, Put;
    row := lazy.rows[id];
    if Replies.ParseExpiry(expiry).Ok? && Chosen(row.items, numbers).Ok? {
      row := SettledRow(row, numbers, Chosen(row.items, numbers).value, t1, Duration(cfg,
            Replies.ParseExpiry(expiry).value));
    }
  }

  lemma RejectAgrees(lazy: Store, eager: Store, cfg: Config, id: nat, t0: Time, t1: Time)
    requires Agree(lazy, eager, cfg, t0) && t0 <= t1
    ensures var (l, a) := Apply(lazy, cfg, DoReject(id), t0, t1);
            var (e, b) := EagerDecide(eager, cfg, DoReject(id), t0, t1);
            SameResult(a, b) && Agree(l, Tick(e, cfg, t1), cfg, t1)
  {
    TickAgrees(lazy, eager, cfg, t0, t1);
    if id in lazy.rows {
      PendingAgrees(lazy, eager, cfg, t0, id);
      PutAgrees(lazy, eager, cfg, t0, t1, id,
                lazy.rows[id].(state := Rejected, decidedAt := Some(t1), source := Rejection));
    }
  }

  lemma RevokeAgrees(lazy: Store, eager: Store, cfg: Config, id: nat, t0: Time, t1: Time)
    requires Agree(lazy, eager, cfg, t0) && t0 <= t1
    ensures var (l, a) := Apply(lazy, cfg, DoRevoke(id), t0, t1);
            var (e, b) := EagerDecide(eager, cfg, DoRevoke(id), t0, t1);
            SameResult(a, b) && Agree(l, Tick(e, cfg, t1), cfg, t1)
  {
    TickAgrees(lazy, eager, cfg, t0, t1);
    if id in lazy.rows {
      PendingAgrees(lazy, eager, cfg, t0, id);
      PutAgrees(lazy, eager, cfg, t0, t1, id,
                lazy.rows[id].(state := Rejected, decidedAt := Some(t1), source := PendingRevoke));
      PutAgrees(lazy, eager, cfg, t0, t1, id, lazy.rows[id].(state := Revoked, source := Revocation));
    }
  }

  lemma DecideAgrees(lazy: Store, eager: Store, cfg: Config, op: Op, t0: Time, t1: Time)
    requires Agree(lazy, eager, cfg, t0) && t0 <= t1
    ensures var (l, a) := Apply(lazy, cfg, op, t0, t1);
            var (e, b) := EagerDecide(eager, cfg, op, t0, t1);
            SameResult(a, b) && Agree(l, Tick(e, cfg, t1), cfg, t1)
  {
    match op
    case DoCreate(instance, reason, items) => CreateAgrees(lazy, eager, cfg, op, t0, t1);
    case DoRestart => DiscardAgrees(lazy, eager, cfg, t0, t1);
    case DoApprove(id, expiry, numbers) =>
      hide Apply, EagerDecide, Agree;
      ApproveAgrees(lazy, eager, cfg, id, expiry, numbers, t0, t1);
    case DoReject(id) => RejectAgrees(lazy, eager, cfg, id, t0, t1);
    case DoRevoke(id) => RevokeAgrees(lazy, eager, cfg, id, t0, t1);
  }

  // ------------------------------------------------------------- whole runs

  /** When the timer last fired. */
  function LastReading(ops: seq<Op>, clock: Readings): Time {
    if ops == [] then clock(0) else clock(2 * |ops| - 1)
  }

  lemma StepAgrees(cfg: Config, lazy: Store, eager: Store, op: Op, t: Time, t0: Time, t1: Time)
    requires Agree(lazy, eager, cfg, t) && t <= t0 <= t1
    ensures Agree(Apply(lazy, cfg, op, t0, t1).0, EagerApply(eager, cfg, op, t0, t1).0, cfg, t1)
    ensures SameResult(Apply(lazy, cfg, op, t0, t1).1, EagerApply(eager, cfg, op, t0, t1).1)
  {
    TickAgrees(lazy, eager, cfg, t, t0);
    DecideAgrees(lazy, Tick(eager, cfg, t0), cfg, op, t0, t1);
  }

  /** After every run the machines agree, and they answered the last operation alike. */
  lemma {:induction false} RunsAgree(cfg: Config, ops: seq<Op>, clock: Readings)
    requires Monotone(clock)
    ensures Agree(After(cfg, ops, clock), EagerAfter(cfg, ops, clock), cfg, LastReading(ops, clock))
    ensures ops != [] ==>
              var n := |ops| - 1;
              SameResult(Apply(After(cfg, ops[..n], clock), cfg, ops[n], clock(2 * n), clock(2 * n + 1)).1,
                         EagerApply(EagerAfter(cfg, ops[..n], clock), cfg, ops[n], clock(2 * n), clock(2 * n + 1)).1)
    decreases |ops|
  {
    if ops != [] {
      var n := |ops| - 1;
      RunsAgree(cfg, ops[..n], clock);
      StepAgrees(cfg, After(cfg, ops[..n], clock), EagerAfter(cfg, ops[..n], clock), ops[n],
                 LastReading(ops[..n], clock), clock(2 * n), clock(2 * n + 1));
    }
  }

  lemma RowObserved(lazy: Store, eager: Store, cfg: Config, instance: Option<string>, id: nat, t: Time, t': Time)
    requires Agree(lazy, eager, cfg, t) && t <= t' && id in lazy.rows && lazy.rows[id].state != Expired
    ensures Running(eager.rows[id], instance) <==> Candidate(lazy.rows[id], instance)
    ensures Candidate(lazy.rows[id], instance) ==> EagerGet(eager, cfg, id, t') == Ok(RecordAt(id, lazy.rows[id],
          cfg, t'))
  {
    assert RowsAgree(lazy.rows[id], eager.rows[id], cfg, t);
    TimedTwice(lazy.rows[id], cfg, t, t');
  }

  lemma {:induction false} ActiveAgrees(lazy: Store, eager: Store, cfg: Config, instance: Option<string>, id: nat,
                                        clock: Readings, k: nat, t: Time)
    requires Monotone(clock) && Agree(lazy, eager, cfg, t) && t <= clock(k)
    requires forall i | i in lazy.rows :: lazy.rows[i].state != Expired
    ensures EagerActiveFrom(eager, cfg, instance, id, clock, k) == ActiveFrom(lazy, cfg, instance, id, clock, k)
    decreases lazy.nextId - id
  {
    if id >= lazy.nextId {
    } else if id in lazy.rows {
      RowObserved(lazy, eager, cfg, instance, id, t, clock(k));
      ActiveAgrees(lazy, eager, cfg, instance, id + 1, clock, if Candidate(lazy.rows[id],
            instance) then k + 1 else k, t);
    } else {
      ActiveAgrees(lazy, eager, cfg, instance, id + 1, clock, k, t);
    }
  }

  /** The refinement: at any later reading get shows the same record in both machines,
      unless the restart rule relabelled the row; active_grants shows exactly the same. */
  lemma LazyRefinesEager(cfg: Config, ops: seq<Op>, clock: Readings, id: nat, instance: Option<string>, k: nat)
    requires Monotone(clock) && k >= 2 * |ops|
    ensures var lazy, eager := After(cfg, ops, clock), EagerAfter(cfg, ops, clock);
            && (Get(lazy, cfg, id, clock(k)) == EagerGet(eager, cfg, id, clock(k)) ||
                (id in lazy.rows && id in eager.rows && Relabelled(lazy.rows[id], eager.rows[id])))
            && ActiveGrants(lazy, cfg, instance, clock, k) == EagerActiveFrom(eager, cfg, instance, 1, clock, k)
  {
    RunsAgree(cfg, ops, clock);
    AfterOk(cfg, ops, clock);
    var lazy, eager := After(cfg, ops, clock), EagerAfter(cfg, ops, clock);
    var t := LastReading(ops, clock);
    assert forall i | i in lazy.rows :: RowOk(lazy.rows[i], cfg);
    ActiveAgrees(lazy, eager, cfg, instance, 1, clock, k, t);
    if id in lazy.rows {
      assert RowsAgree(lazy.rows[id], eager.rows[id], cfg, t);
      TimedTwice(lazy.rows[id], cfg, t, clock(k));
    }
  }

  /** The exception is real and exact: a restart relabels precisely the pending rows the
      timer has already expired, and leaves the two machines equal on all others. */
  lemma RestartRelabels(lazy: Store, eager: Store, cfg: Config, t: Time, id: nat)
    requires Agree(lazy, eager, cfg, t) && id in lazy.rows && !Relabelled(lazy.rows[id], eager.rows[id])
    ensures Relabelled(Discard(lazy).rows[id], Discard(eager).rows[id]) <==>
            lazy.rows[id].state == Pending && StateAt(lazy.rows[id], cfg, t) == Expired
  {
    assert RowsAgree(lazy.rows[id], eager.rows[id], cfg, t);
  }

  function AskThenRestart(): seq<Op> { [DoCreate("home", "why", [RawItem(Some("a"), READ)]), DoRestart] }

  function OneRow(row: Row): Store { Store(map[1 := row], 2, map[]) }

  lemma OneRowMoves(row: Row, cfg: Config, t: Time)
    ensures Tick(OneRow(row), cfg, t) == OneRow(Timed(row, cfg, t))
    ensures Discard(OneRow(row)) == OneRow(DiscardRow(row))
  {
  }

  lemma TickNothing(cfg: Config, t: Time)
    ensures Tick(EMPTY, cfg, t) == EMPTY
  {
  }

  lemma LazyRunOfTwo(cfg: Config, clock: Readings)
    requires cfg.allowed.None?
    ensures var row := NewRow("home", "why", [Item("a", READ)], clock(0));
            && After(cfg, AskThenRestart()[..1], clock) == OneRow(row)
            && After(cfg, AskThenRestart(), clock) == OneRow(DiscardRow(row))
  {
    var ops := AskThenRestart();
    assert ops[..1] == [ops[0]] && ops[..1][..0] == [];
    var row := NewRow("home", "why", [Item("a", READ)], clock(0));
    AskedOnce(cfg, clock(0), ops[0].items);
    OneRowMoves(row, cfg, clock(1));
    hide Create, Tick, Discard, Timed;
  }

  lemma EagerRunOfTwo(cfg: Config, clock: Readings)
    requires cfg.allowed.None?
    ensures var row := NewRow("home", "why", [Item("a", READ)], clock(0));
            EagerAfter(cfg, AskThenRestart(), clock) ==
            OneRow(Timed(DiscardRow(Timed(Timed(row, cfg, clock(1)), cfg, clock(2))), cfg, clock(3)))
  {
    var ops := AskThenRestart();
    assert ops[..1] == [ops[0]] && ops[..1][..0] == [];
    var row := NewRow("home", "why", [Item("a", READ)], clock(0));
    AskedOnce(cfg, clock(0), ops[0].items);
    TickNothing(cfg, clock(0));
    OneRowMoves(row, cfg, clock(1));
    var once := Timed(row, cfg, clock(1));
    OneRowMoves(once, cfg, clock(2));
    OneRowMoves(Timed(once, cfg, clock(2)), cfg, clock(2));
    OneRowMoves(DiscardRow(Timed(once, cfg, clock(2))), cfg, clock(3));
    hide Create, Tick, Discard, Timed, OneRow, DiscardRow;
    assert EagerAfter(cfg, ops[..1], clock) == OneRow(once);
  }

  /** A run in which it happens: one request, then a restart; the row is relabelled exactly
      if the restart came after the pending timeout. */
  lemma RelabellingRun(cfg: Config, clock: Readings)
    requires Monotone(clock) && cfg.allowed.None?
    ensures var lazy, eager := After(cfg, AskThenRestart(), clock), EagerAfter(cfg, AskThenRestart(), clock);
            && 1 in lazy.rows && 1 in eager.rows
            && (Relabelled(lazy.rows[1], eager.rows[1]) <==> clock(2) - clock(0) >= cfg.pendingTimeout)
  {
    LazyRunOfTwo(cfg, clock);
    EagerRunOfTwo(cfg, clock);
    hide After, EagerAfter;
  }

  lemma AskedOnce(cfg: Config, t: Time, items: seq<RawItem>)
    requires cfg.allowed.None? && items == [RawItem(Some("a"), READ)]
    ensures Create(EMPTY, cfg, "home", "why", items, t) ==
            (Store(map[1 := NewRow("home", "why", [Item("a", READ)], t)], 2, map[]), Ok(1))
  {
    LetterIsNormal();
    Texts.StripOfTrimmed("why");
    assert items[1..] == [];
    assert CleanItems(items[1..]) == Ok([]);
    assert CleanItems(items) == Ok([Item("a", READ)] + []);
    assert [Item("a", READ)] + [] == [Item("a", READ)];
  }
}
