/** What every run of the grant store keeps, and what its reads mean. */
module Lifecycle {
  import opened Wrappers
  import opened Clocks
  import opened Paths
  import opened Grants
  import Replies
  import Texts

  // -------------------------------------------------------------- invariants

  /** A grant's lifetime is the default or what an expiry string can express. */
  predicate LifetimeOk(row: Row, cfg: Config)
    requires row.decidedAt.Some? && row.expiresAt.Some?
  {
    var d := row.expiresAt.value - row.decidedAt.value;
    d == cfg.defaultDuration || 60_000_000 <= d <= 86_313_600_000_000
  }

  ghost predicate ItemOk(it: Item) {
    KnownMode(it.mode) && Canonical(it.path) && exists raw :: Normalize(raw) == Some(it.path)
  }

  ghost predicate RowOk(row: Row, cfg: Config) {
    && row.items != []
    && (forall it | it in row.items :: ItemOk(it))
    && row.reason != "" && Texts.Strip(row.reason) == row.reason
    && (cfg.allowed.Some? ==> row.instance in cfg.allowed.value)
    && row.state != Expired
    && (row.state == Pending || row.state == Rejected <==> row.expiresAt.None?)
    && (row.expiresAt.Some? ==> row.decidedAt.Some? && LifetimeOk(row, cfg))
  }

  ghost predicate StoreOk(st: Store, cfg: Config) {
    && 1 <= st.nextId
    && (forall id | id in st.rows :: 1 <= id < st.nextId && RowOk(st.rows[id], cfg))
    && (forall e | e in st.posted :: st.posted[e] in st.rows)
  }

  // ------------------------------------------------------ how a run moves rows

  /** Expired, rejected or revoked: the absorbing class. */
  predicate Dead(row: Row, cfg: Config, t: Time) {
    StateAt(row, cfg, t) == Expired || StateAt(row, cfg, t) == Rejected || StateAt(row, cfg, t) == Revoked
  }

  /** Rejected or revoked in the database itself. */
  predicate Settled(row: Row) { row.state == Rejected || row.state == Revoked }

  ghost predicate RowEvolves(r: Row, t: Time, r': Row, t': Time, cfg: Config) {
    && r'.instance == r.instance && r'.reason == r.reason && r'.createdAt == r.createdAt
    && (Dead(r, cfg, t) ==> Dead(r', cfg, t'))
    && (Settled(r) ==> r' == r)
    && (r.state != Pending ==> r'.state != Pending && r'.items == r.items && r'.expiresAt == r.expiresAt)
    && (r'.state == Pending ==> r' == r)
    && (forall it | it in r'.items :: it in r.items)
  }

  /** From one moment of a run to a later one: ids only grow and are never reused, dead
      rows stay dead and settled ones never change, items are chosen once and only among the requested ones, and an
      expiry once written is never touched again. */
  ghost predicate Evolves(s: Store, t: Time, s': Store, t': Time, cfg: Config) {
    && t <= t' && s.nextId <= s'.nextId
    && (forall id | id in s.rows :: id in s'.rows && RowEvolves(s.rows[id], t, s'.rows[id], t', cfg))
    && (forall id | id in s'.rows && id !in s.rows :: s.nextId <= id < s'.nextId)
    && (forall e | e in s.posted :: e in s'.posted && s'.posted[e] == s.posted[e])
  }

  lemma EvolvesReflexive(s: Store, t: Time, t': Time, cfg: Config)
    requires t <= t'
    ensures Evolves(s, t, s, t', cfg)
  {
  }

  lemma EvolvesTransitive(a: Store, t: Time, b: Store, t': Time, c: Store, t'': Time, cfg: Config)
    requires Evolves(a, t, b, t', cfg) && Evolves(b, t', c, t'', cfg)
    ensures Evolves(a, t, c, t'', cfg)
  {
    forall id | id in a.rows
      ensures id in c.rows && RowEvolves(a.rows[id], t, c.rows[id], t'', cfg)
    {
      assert RowEvolves(a.rows[id], t, b.rows[id], t', cfg) && RowEvolves(b.rows[id], t', c.rows[id], t'', cfg);
    }
  }

  lemma {:induction false} CleanItemsShape(items: seq<RawItem>)
    requires CleanItems(items).Ok?
    ensures |CleanItems(items).value| == |items|
    ensures forall i | 0 <= i < |items| ::
              KnownMode(items[i].mode) && items[i].path.Some? && items[i].mode == CleanItems(items).value[i].mode &&
              Normalize(items[i].path.value) == Some(CleanItems(items).value[i].path)
  {
    hide Normalize;
    if items != [] {
      CleanItemsShape(items[1..]);
      var clean := CleanItems(items).value;
      assert clean[1..] == CleanItems(items[1..]).value;
      forall i | 0 <= i < |items|
        ensures KnownMode(items[i].mode) && items[i].path.Some? && items[i].mode == clean[i].mode &&
                Normalize(items[i].path.value) == Some(clean[i].path)
      {
        if i > 0 {
          assert items[i] == items[1..][i - 1] && clean[i] == clean[1..][i - 1];
        }
      }
    }
  }

  /** Accepted items are the requested ones, each path normalized. */
  lemma CleanItemsOk(items: seq<RawItem>)
    requires CleanItems(items).Ok?
    ensures forall it | it in CleanItems(items).value :: ItemOk(it)
  {
    hide Normalize, Canonical, CleanItems;
    CleanItemsShape(items);
    var clean := CleanItems(items).value;
    forall it | it in clean ensures ItemOk(it) {
      var i :| 0 <= i < |clean| && clean[i] == it;
      NormalizedShape(items[i].path.value);
    }
  }

  lemma {:induction false} ChooseMembers(items: seq<Item>, numbers: seq<int>)
    requires Choose(items, numbers).Ok?
    ensures |Choose(items, numbers).value| == |numbers|
    ensures forall i | 0 <= i < |numbers| ::
              1 <= numbers[i] <= |items| && Choose(items, numbers).value[i] == items[numbers[i] - 1]
  {
    if numbers != [] {
      ChooseMembers(items, numbers[1..]);
      var rest := Choose(items, numbers[1..]).value;
      forall i | 0 <= i < |numbers|
        ensures 1 <= numbers[i] <= |items| && Choose(items, numbers).value[i] == items[numbers[i] - 1]
      {
        if i > 0 {
          assert numbers[i] == numbers[1..][i - 1] && Choose(items, numbers).value[i] == rest[i - 1];
        }
      }
    }
  }

  /** A choice is accepted exactly if every number is in range. */
  lemma {:induction false} ChooseAccepts(items: seq<Item>, numbers: seq<int>)
    ensures Choose(items, numbers).Ok? <==> forall n | n in numbers :: 1 <= n <= |items|
    decreases |numbers|
  {
    if numbers != [] {
      ChooseAccepts(items, numbers[1..]);
      var head, rest := numbers[0], numbers[1..];
      assert numbers == [head] + rest && head in numbers;
      if Choose(items, numbers).Ok? {
        forall n | n in numbers ensures 1 <= n <= |items| {
          assert n == head || n in rest;
        }
      } else if 1 <= head <= |items| {
        var n :| n in rest && !(1 <= n <= |items|);
        assert n in numbers;
      }
    }
  }

  // --------------------------------------------------------- one lemma per step

  lemma CreateKeeps(st: Store, cfg: Config, instance: string, reason: string, items: seq<RawItem>, t: Time)
    requires StoreOk(st, cfg)
    ensures var (st', r) := Create(st, cfg, instance, reason, items, t);
            StoreOk(st', cfg) && Evolves(st, t, st', t, cfg) && (r.Err? ==> st' == st) &&
            (r.Ok? ==> CleanItems(items).Ok? && r.value == st.nextId && st'.nextId == st.nextId + 1 &&
                       st'.rows == st.rows[r.value := NewRow(instance, Texts.Strip(reason), CleanItems(items).value,
                             t)])
  {
    Texts.StripTrims(reason);
    if CleanItems(items).Ok? {
      CleanItemsOk(items);
    }
  }

  /** One row is rewritten; everything else stays. */
  lemma PutKeeps(st: Store, cfg: Config, id: nat, row: Row, t: Time, t': Time)
    requires StoreOk(st, cfg) && id in st.rows && RowOk(row, cfg) && t <= t'
    requires RowEvolves(st.rows[id], t, row, t', cfg)
    ensures StoreOk(Put(st, id, row), cfg) && Evolves(st, t, Put(st, id, row), t', cfg)
  {
    EvolvesReflexive(st, t, t', cfg);
    hide RowOk, RowEvolves;
  }

  lemma ExpiryBounds(expiry: Option<string>, cfg: Config)
    requires Replies.ParseExpiry(expiry).Ok?
    ensures var d := Duration(cfg, Replies.ParseExpiry(expiry).value);
            d == cfg.defaultDuration || 60_000_000 <= d <= 86_313_600_000_000
  {
  }

  lemma SettledRowOk(row: Row, cfg: Config, numbers: Option<seq<int>>, items: seq<Item>, t: Time, t0: Time, t1: Time,
                     d: Time)
    requires RowOk(row, cfg) && t <= t0 <= t1 && StateAt(row, cfg, t0) == Pending
    requires Chosen(row.items, numbers) == Ok(items)
    requires d == cfg.defaultDuration || 60_000_000 <= d <= 86_313_600_000_000
    ensures var row' := SettledRow(row, numbers, items, t1, d);
            RowOk(row', cfg) && RowEvolves(row, t, row', t1, cfg)
  {
    if numbers.Some? {
      ChooseMembers(row.items, numbers.value);
      forall it | it in items ensures it in row.items {
        var i :| 0 <= i < |items| && items[i] == it;
        assert it == row.items[numbers.value[i] - 1];
      }
    }
  }

  lemma ApproveKeeps(st: Store, cfg: Config, id: nat, expiry: Option<string>, numbers: Option<seq<int>>,
                     t: Time, t0: Time, t1: Time)
    requires StoreOk(st, cfg) && t <= t0 <= t1
    ensures var (st', r) := Approve(st, cfg, id, expiry, numbers, t0, t1);
            StoreOk(st', cfg) && Evolves(st, t, st', t1, cfg)
  {
    var (st', r) := Approve(st, cfg, id, expiry, numbers, t0, t1);
    if r.Ok? {
      var row := st.rows[id];
      var d := Duration(cfg, Replies.ParseExpiry(expiry).value);
      var items := Chosen(row.items, numbers).value;
      ExpiryBounds(expiry, cfg);
      SettledRowOk(row, cfg, numbers, items, t, t0, t1, d);
      PutKeeps(st, cfg, id, SettledRow(row, numbers, items, t1, d), t, t1);
    } else {
      EvolvesReflexive(st, t, t1, cfg);
    }
  }

  lemma RejectedRowOk(row: Row, cfg: Config, source: Source, t: Time, t0: Time, t1: Time)
    requires RowOk(row, cfg) && t <= t0 <= t1 && StateAt(row, cfg, t0) == Pending
    ensures var row' := row.(state := Rejected, decidedAt := Some(t1), source := source);
            RowOk(row', cfg) && RowEvolves(row, t, row', t1, cfg)
  {
  }

  lemma RevokedRowOk(row: Row, cfg: Config, t: Time, t0: Time, t1: Time)
    requires RowOk(row, cfg) && t <= t0 <= t1 && StateAt(row, cfg, t0) == Active
    ensures var row' := row.(state := Revoked, source := Revocation);
            RowOk(row', cfg) && RowEvolves(row, t, row', t1, cfg)
  {
  }

  lemma RejectKeeps(st: Store, cfg: Config, id: nat, t: Time, t0: Time, t1: Time)
    requires StoreOk(st, cfg) && t <= t0 <= t1
    ensures StoreOk(Reject(st, cfg, id, t0, t1).0, cfg)
    ensures Evolves(st, t, Reject(st, cfg, id, t0, t1).0, t1, cfg)
  {
    if Reject(st, cfg, id, t0, t1).1.Ok? {
      var row := st.rows[id];
      RejectedRowOk(row, cfg, Rejection, t, t0, t1);
      PutKeeps(st, cfg, id, row.(state := Rejected, decidedAt := Some(t1), source := Rejection), t, t1);
    } else {
      EvolvesReflexive(st, t, t1, cfg);
    }
  }

  lemma RevokeKeeps(st: Store, cfg: Config, id: nat, t: Time, t0: Time, t1: Time)
    requires StoreOk(st, cfg) && t <= t0 <= t1
    ensures StoreOk(Revoke(st, cfg, id, t0, t1).0, cfg)
    ensures Evolves(st, t, Revoke(st, cfg, id, t0, t1).0, t1, cfg)
  {
    if Revoke(st, cfg, id, t0, t1).1.Ok? {
      var row := st.rows[id];
      if StateAt(row, cfg, t0) == Pending {
        RejectedRowOk(row, cfg, PendingRevoke, t, t0, t1);
        PutKeeps(st, cfg, id, row.(state := Rejected, decidedAt := Some(t1), source := PendingRevoke), t, t1);
      } else {
        RevokedRowOk(row, cfg, t, t0, t1);
        PutKeeps(st, cfg, id, row.(state := Revoked, source := Revocation), t, t1);
      }
    } else {
      EvolvesReflexive(st, t, t1, cfg);
    }
  }

  lemma DiscardKeeps(st: Store, cfg: Config, t: Time)
    requires StoreOk(st, cfg)
    ensures StoreOk(Discard(st), cfg) && Evolves(st, t, Discard(st), t, cfg)
    ensures forall id | id in Discard(st).rows :: Discard(st).rows[id].state != Pending
  {
    hide RowOk, RowEvolves;
    forall id | id in st.rows ensures RowOk(DiscardRow(st.rows[id]), cfg) && RowEvolves(st.rows[id], t,
          DiscardRow(st.rows[id]), t, cfg) {
      DiscardedRow(st.rows[id], cfg, t);
    }
  }

  lemma DiscardedRow(row: Row, cfg: Config, t: Time)
    requires RowOk(row, cfg)
    ensures RowOk(DiscardRow(row), cfg) && RowEvolves(row, t, DiscardRow(row), t, cfg)
  {
  }

  // ---------------------------------------------------- what a decision means

  /** The expiry the approver typed, or the default. */
  predicate Lifetime(cfg: Config, expiry: Option<string>, d: Time) {
    match expiry
    case None => d == cfg.defaultDuration
    case Some(text) =>
      var e := Texts.Strip(text);
      Replies.ExpiryForm(e) && Replies.ParseNat(e[..|e| - 1]) > 0 &&
      Replies.Spans(Replies.ParseNat(e[..|e| - 1]), e[|e| - 1], d)
  }

  predicate InRange(numbers: Option<seq<int>>, n: nat) {
    numbers.Some? ==> forall i | i in numbers.value :: 1 <= i <= n
  }

  /** The chosen items, in the order chosen; all of them without a choice. */
  predicate ChosenItems(all: seq<Item>, numbers: Option<seq<int>>, items: seq<Item>) {
    match numbers
    case None => items == all
    case Some(ns) =>
      |items| == |ns| && forall i | 0 <= i < |ns| :: 1 <= ns[i] <= |all| && items[i] == all[ns[i] - 1]
  }

  lemma ExpiryLifetime(cfg: Config, expiry: Option<string>)
    ensures Replies.ParseExpiry(expiry).Ok? <==> exists d :: Lifetime(cfg, expiry, d)
    ensures Replies.ParseExpiry(expiry).Ok? ==> Lifetime(cfg, expiry, Duration(cfg, Replies.ParseExpiry(expiry).value))
  {
    if expiry.Some? {
      Replies.ParseExpiryExactly(expiry.value);
      hide Replies.ParseExpiry;
      if Replies.ParseExpiry(expiry).Ok? {
        assert Lifetime(cfg, expiry, Replies.ParseExpiry(expiry).value.value);
      }
    } else {
      assert Lifetime(cfg, expiry, cfg.defaultDuration);
    }
  }

  /** approve, exactly: it succeeds if and only if the number is still open, the expiry is
      well-formed and every item number in range; the grant then holds just the chosen
      items for just the lifetime asked for. Nothing chosen rejects the batch. */
  lemma ApprovalMeaning(st: Store, cfg: Config, id: nat, expiry: Option<string>, numbers: Option<seq<int>>, t0: Time,
                        t1: Time)
    ensures var (st', r) := Approve(st, cfg, id, expiry, numbers, t0, t1);
            && (r.Ok? <==> id in st.rows && StateAt(st.rows[id], cfg, t0) == Pending &&
                           (exists d :: Lifetime(cfg, expiry, d)) && InRange(numbers, |st.rows[id].items|))
            && (r.Err? ==> st' == st)
            && (r.Ok? ==>
                  && id in st'.rows && st'.rows == st.rows[id := st'.rows[id]]
                  && (if numbers == Some([]) then st'.rows[id].state == Rejected
                      else
                        && st'.rows[id].state == Active
                        && ChosenItems(st.rows[id].items, numbers, st'.rows[id].items)
                        && st'.rows[id].decidedAt == Some(t1)
                        && st'.rows[id].expiresAt.Some? && Lifetime(cfg, expiry, st'.rows[id].expiresAt.value - t1)))
  {
    ExpiryLifetime(cfg, expiry);
    hide Replies.ParseExpiry, Lifetime, StateAt;
    if id in st.rows && numbers.Some? {
      ChooseAccepts(st.rows[id].items, numbers.value);
      if Choose(st.rows[id].items, numbers.value).Ok? {
        ChooseMembers(st.rows[id].items, numbers.value);
        hide Choose;
      }
    }
  }

  /** A number that has expired or was decided against is refused by every decision,
      from then on. */
  lemma DeadNumbersRefuse(st: Store, cfg: Config, id: nat, expiry: Option<string>, numbers: Option<seq<int>>,
                          t: Time, t0: Time, t1: Time)
    requires id in st.rows && Dead(st.rows[id], cfg, t) && t <= t0 <= t1
    ensures var (a, ra) := Approve(st, cfg, id, expiry, numbers, t0, t1);
            a == st && ra.Err? && ra.error.AlreadyDecided?
    ensures var (b, rb) := Reject(st, cfg, id, t0, t1);
            b == st && rb.Err? && rb.error.AlreadyDecided?
    ensures var (c, rc) := Revoke(st, cfg, id, t0, t1);
            c == st && rc.Err? && rc.error.AlreadyDecided?
  {
    assert StateAt(st.rows[id], cfg, t0) != Pending && StateAt(st.rows[id], cfg, t0) != Active;
  }

  // -------------------------------------------------------- runs of the store

  datatype Op =
    | DoCreate(instance: string, reason: string, items: seq<RawItem>)
    | DoApprove(id: nat, expiry: Option<string>, numbers: Option<seq<int>>)
    | DoReject(id: nat)
    | DoRevoke(id: nat)
    | DoRestart

  function Void(r: Result<nat, StoreError>): Result<(), StoreError> {
    match r case Ok(_) => Ok(()) case Err(e) => Err(e)
  }

  function Apply(st: Store, cfg: Config, op: Op, t0: Time, t1: Time): (Store, Result<(), StoreError>) {
    match op
    case DoCreate(instance, reason, items) =>
      var (st', r) := Create(st, cfg, instance, reason, items, t0);
      (st', Void(r))
    case DoApprove(id, expiry, numbers) => Approve(st, cfg, id, expiry, numbers, t0, t1)
    case DoReject(id) => Reject(st, cfg, id, t0, t1)
    case DoRevoke(id) => Revoke(st, cfg, id, t0, t1)
    case DoRestart => (Discard(st), Ok(()))
  }

  lemma ApplyKeeps(st: Store, cfg: Config, op: Op, t: Time, t0: Time, t1: Time)
    requires StoreOk(st, cfg) && t <= t0 <= t1
    ensures var (st', r) := Apply(st, cfg, op, t0, t1);
            StoreOk(st', cfg) && Evolves(st, t, st', t1, cfg)
  {
    match op
    case DoCreate(instance, reason, items) =>
      CreateKeeps(st, cfg, instance, reason, items, t0);
      var st' := Create(st, cfg, instance, reason, items, t0).0;
      EvolvesReflexive(st, t, t0, cfg);
      EvolvesReflexive(st', t0, t1, cfg);
      EvolvesTransitive(st, t, st, t0, st', t0, cfg);
      EvolvesTransitive(st, t, st', t0, st', t1, cfg);
    case DoApprove(id, expiry, numbers) => ApproveKeeps(st, cfg, id, expiry, numbers, t, t0, t1);
    case DoReject(id) => RejectKeeps(st, cfg, id, t, t0, t1);
    case DoRevoke(id) => RevokeKeeps(st, cfg, id, t, t0, t1);
    case DoRestart =>
      DiscardKeeps(st, cfg, t);
      EvolvesReflexive(Discard(st), t, t1, cfg);
      EvolvesTransitive(st, t, Discard(st), t, Discard(st), t1, cfg);
  }

  /** The store after the operations, the i-th reading the clock at 2i and 2i + 1. */
  function After(cfg: Config, ops: seq<Op>, clock: Readings): Store
    decreases |ops|
  {
    if ops == [] then EMPTY
    else
      var n := |ops| - 1;
      Apply(After(cfg, ops[..n], clock), cfg, ops[n], clock(2 * n), clock(2 * n + 1)).0
  }

  lemma {:induction false} AfterOk(cfg: Config, ops: seq<Op>, clock: Readings)
    requires Monotone(clock)
    ensures StoreOk(After(cfg, ops, clock), cfg)
    decreases |ops|
  {
    if ops != [] {
      var n := |ops| - 1;
      AfterOk(cfg, ops[..n], clock);
      ApplyKeeps(After(cfg, ops[..n], clock), cfg, ops[n], clock(2 * n), clock(2 * n), clock(2 * n + 1));
    }
  }

  lemma LastStepEvolves(cfg: Config, ops: seq<Op>, clock: Readings)
    requires Monotone(clock) && ops != []
    ensures Evolves(After(cfg, ops[..|ops| - 1], clock), clock(2 * (|ops| - 1)),
                    After(cfg, ops, clock), clock(2 * |ops|), cfg)
  {
    var n := |ops| - 1;
    var mid, end := After(cfg, ops[..n], clock), After(cfg, ops, clock);
    AfterOk(cfg, ops[..n], clock);
    ApplyKeeps(mid, cfg, ops[n], clock(2 * n), clock(2 * n), clock(2 * n + 1));
    EvolvesReflexive(end, clock(2 * n + 1), clock(2 * n + 2), cfg);
    EvolvesTransitive(mid, clock(2 * n), end, clock(2 * n + 1), end, clock(2 * n + 2), cfg);
  }

  /** Over every run with restarts, from any moment to any later one. */
  lemma {:induction false} RunsEvolve(cfg: Config, ops: seq<Op>, clock: Readings, i: nat)
    requires Monotone(clock) && i <= |ops|
    ensures Evolves(After(cfg, ops[..i], clock), clock(2 * i), After(cfg, ops, clock), clock(2 * |ops|), cfg)
    decreases |ops|
  {
    var from := After(cfg, ops[..i], clock);
    if i == |ops| {
      assert ops[..i] == ops;
      EvolvesReflexive(from, clock(2 * i), clock(2 * i), cfg);
    } else {
      var n := |ops| - 1;
      assert ops[..n][..i] == ops[..i];
      RunsEvolve(cfg, ops[..n], clock, i);
      LastStepEvolves(cfg, ops, clock);
      EvolvesTransitive(from, clock(2 * i), After(cfg, ops[..n], clock), clock(2 * n),
                        After(cfg, ops, clock), clock(2 * |ops|), cfg);
    }
  }

  // ------------------------------------------------------ what active_grants is

  /** rec is what the store showed of its row at one of the readings k..k'. */
  ghost predicate SeenAt(rec: GrantRecord, st: Store, cfg: Config, clock: Readings, k: nat, k': nat) {
    rec.id in st.rows && exists j: nat | k <= j < k' :: rec == RecordAt(rec.id, st.rows[rec.id], cfg, clock(j))
  }

  predicate Increasing(out: seq<GrantRecord>) {
    forall i, j | 0 <= i < j < |out| :: out[i].id < out[j].id
  }

  ghost predicate Listed(out: seq<GrantRecord>, id: nat) { exists rec | rec in out :: rec.id == id }

  lemma StillActive(row: Row, cfg: Config, t: Time, t': Time)
    requires t <= t' && StateAt(row, cfg, t') == Active
    ensures StateAt(row, cfg, t) == Active
  {
  }

  lemma SeenLonger(rec: GrantRecord, st: Store, cfg: Config, clock: Readings, k: nat, k': nat, lo: nat)
    requires lo <= k && SeenAt(rec, st, cfg, clock, k, k')
    ensures SeenAt(rec, st, cfg, clock, lo, k')
  {
    var j: nat :| k <= j < k' && rec == RecordAt(rec.id, st.rows[rec.id], cfg, clock(j));
  }

  /** out lists, in id order without repeats, only candidates from id on that one of the
      readings k..k' showed active, and all that are still active at reading k'. */
  ghost predicate Lists(out: seq<GrantRecord>, k': nat, st: Store, cfg: Config, instance: Option<string>, id: nat,
                        clock: Readings, k: nat)
  {
    && k <= k' && Increasing(out)
    && (forall rec | rec in out :: id <= rec.id && rec.state == Active &&
          SeenAt(rec, st, cfg, clock, k, k') && Candidate(st.rows[rec.id], instance))
    && (forall i | i in st.rows && id <= i && Candidate(st.rows[i], instance) &&
          StateAt(st.rows[i], cfg, clock(k')) == Active :: Listed(out, i))
  }

  lemma ListsCandidate(rest: seq<GrantRecord>, k': nat, st: Store, cfg: Config, instance: Option<string>, id: nat,
                       clock: Readings, k: nat)
    requires Monotone(clock) && id in st.rows && Candidate(st.rows[id], instance)
    requires Lists(rest, k', st, cfg, instance, id + 1, clock, k + 1)
    ensures var head := RecordAt(id, st.rows[id], cfg, clock(k));
            Lists(if head.state == Active then [head] + rest else rest, k', st, cfg, instance, id, clock, k)
  {
    var head := RecordAt(id, st.rows[id], cfg, clock(k));
    var out := if head.state == Active then [head] + rest else rest;
    assert head == RecordAt(head.id, st.rows[head.id], cfg, clock(k));
    forall rec | rec in out
      ensures id <= rec.id && rec.state == Active && SeenAt(rec, st, cfg, clock, k, k') &&
              Candidate(st.rows[rec.id], instance)
    {
      if rec in rest {
        SeenLonger(rec, st, cfg, clock, k + 1, k', k);
      }
    }
    forall i | i in st.rows && id <= i && Candidate(st.rows[i], instance) &&
               StateAt(st.rows[i], cfg, clock(k')) == Active
      ensures Listed(out, i)
    {
      if i == id {
        StillActive(st.rows[id], cfg, clock(k), clock(k'));
        assert head in out;
      } else {
        var rec :| rec in rest && rec.id == i;
        assert rec in out;
      }
    }
  }

  lemma {:induction false} ActiveFromMeaning(st: Store, cfg: Config, instance: Option<string>, id: nat,
                                             clock: Readings, k: nat)
    requires Monotone(clock) && forall i | i in st.rows :: i < st.nextId
    ensures var (out, k') := ActiveFrom(st, cfg, instance, id, clock, k);
            Lists(out, k', st, cfg, instance, id, clock, k)
    decreases st.nextId - id
  {
    if id < st.nextId {
      if id !in st.rows || !Candidate(st.rows[id], instance) {
        ActiveFromMeaning(st, cfg, instance, id + 1, clock, k);
      } else {
        var (rest, k') := ActiveFrom(st, cfg, instance, id + 1, clock, k + 1);
        ActiveFromMeaning(st, cfg, instance, id + 1, clock, k + 1);
        ListsCandidate(rest, k', st, cfg, instance, id, clock, k);
      }
    }
  }

  /** active_grants lists exactly the rows that are effective-active: nothing but rows
      shown active by one of its own readings, and every row still active after the last. */
  lemma ActiveGrantsMeaning(st: Store, cfg: Config, instance: Option<string>, clock: Readings, k: nat)
    requires Monotone(clock) && StoreOk(st, cfg)
    ensures var (out, k') := ActiveGrants(st, cfg, instance, clock, k);
            Lists(out, k', st, cfg, instance, 1, clock, k)
  {
    ActiveFromMeaning(st, cfg, instance, 1, clock, k);
  }
}
