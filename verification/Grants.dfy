/** The grant store: rows with a persistent lifecycle whose expiry is computed on read. */
module Grants {
  import opened Wrappers
  import opened Texts
  import opened Clocks
  import opened Paths
  import Replies

  datatype Item = Item(path: string, mode: string)

  /** An item as the requester sends it; the path may be missing. */
  datatype RawItem = RawItem(path: Option<string>, mode: string)

  datatype State = Pending | Active | Expired | Revoked | Rejected

  datatype Source =
    | Undecided
    | Approval
    | Rejection
    | PartialEmpty
    | PendingRevoke
    | Revocation
    | RestartDiscard
    | PendingTimeout
    | GrantExpiry

  datatype Row = Row(
    instance: string, reason: string, items: seq<Item>, createdAt: Time,
    decidedAt: Option<Time>, expiresAt: Option<Time>, state: State, source: Source)

  /** A row as callers see it, with its effective state. */
  datatype GrantRecord = GrantRecord(
    id: nat, instance: string, reason: string, items: seq<Item>, state: State,
    expiresAt: Option<Time>, createdAt: Time, source: Source)

  datatype StoreError =
    | EmptyReason
    | NoItems
    | UnknownInstance
    | InvalidMode
    | InvalidPath
    | UnknownId
    | AlreadyDecided(state: State)
    | InvalidExpiry
    | InvalidItemNumber(number: int)
    | DuplicateEvent

  datatype Config = Config(pendingTimeout: Time, defaultDuration: Time, allowed: Option<set<string>>)

  /** The database: rows by id, the next id, and which request a room message carries. */
  datatype Store = Store(rows: map<nat, Row>, nextId: nat, posted: map<string, nat>)

  const EMPTY := Store(map[], 1, map[])

  // ------------------------------------------------------------ what reads see

  /** _state: the effective state at a clock reading. */
  function StateAt(row: Row, cfg: Config, t: Time): State {
    match row.state
    case Pending => if t - row.createdAt >= cfg.pendingTimeout then Expired else Pending
    case Active => if row.expiresAt.Some? && t < row.expiresAt.value then Active else Expired
    case _ => row.state
  }

  function SourceAt(row: Row, cfg: Config, t: Time): Source {
    if StateAt(row, cfg, t) == Expired && row.state == Pending then PendingTimeout
    else if StateAt(row, cfg, t) == Expired && row.state == Active then GrantExpiry
    else row.source
  }

  /** _get_row on an existing id. */
  function RecordAt(id: nat, row: Row, cfg: Config, t: Time): GrantRecord {
    GrantRecord(id, row.instance, row.reason, row.items, StateAt(row, cfg, t), row.expiresAt, row.createdAt,
                SourceAt(row, cfg, t))
  }

  function Get(st: Store, cfg: Config, id: nat, t: Time): Result<GrantRecord, StoreError> {
    if id in st.rows then Ok(RecordAt(id, st.rows[id], cfg, t)) else Err(UnknownId)
  }

  /** The row is a candidate of active_grants: stored active, on the wanted instance. */
  predicate Candidate(row: Row, instance: Option<string>) {
    row.state == Active && (instance.Some? ==> row.instance == instance.value)
  }

  /** active_grants from one id on, in id order: every candidate costs one clock reading.
      Returns the records and the next reading. */
  function ActiveFrom(st: Store, cfg: Config, instance: Option<string>, id: nat, clock: Readings, k: nat)
    : (seq<GrantRecord>, nat)
    decreases st.nextId - id
  {
    if id >= st.nextId then ([], k)
    else if id !in st.rows || !Candidate(st.rows[id], instance) then
      ActiveFrom(st, cfg, instance, id + 1, clock, k)
    else
      var rec := RecordAt(id, st.rows[id], cfg, clock(k));
      var (rest, k') := ActiveFrom(st, cfg, instance, id + 1, clock, k + 1);
      (if rec.state == Active then [rec] + rest else rest, k')
  }

  function ActiveGrants(st: Store, cfg: Config, instance: Option<string>, clock: Readings, k: nat)
    : (seq<GrantRecord>, nat)
  {
    ActiveFrom(st, cfg, instance, 1, clock, k)
  }

  /** pending_records from one id on, each with one clock reading. */
  function PendingFrom(st: Store, cfg: Config, id: nat, clock: Readings, k: nat): (seq<GrantRecord>, nat)
    decreases st.nextId - id
  {
    if id >= st.nextId then ([], k)
    else if id !in st.rows || st.rows[id].state != Pending then PendingFrom(st, cfg, id + 1, clock, k)
    else
      var (rest, k') := PendingFrom(st, cfg, id + 1, clock, k + 1);
      ([RecordAt(id, st.rows[id], cfg, clock(k))] + rest, k')
  }

  // -------------------------------------------------------------- transitions

  /** Each item's path normalized, or the first item's error. */
  function CleanItems(items: seq<RawItem>): Result<seq<Item>, StoreError> {
    if items == [] then Ok([])
    else
      var it := items[0];
      if !KnownMode(it.mode) then Err(InvalidMode)
      else if it.path.None? || Normalize(it.path.value).None? then Err(InvalidPath)
      else
        match CleanItems(items[1..])
        case Err(e) => Err(e)
        case Ok(rest) => Ok([Item(Normalize(it.path.value).value, it.mode)] + rest)
  }

  function NewRow(instance: string, reason: string, items: seq<Item>, t: Time): Row {
    Row(instance, reason, items, t, None, None, Pending, Undecided)
  }

  function Create(st: Store, cfg: Config, instance: string, reason: string, items: seq<RawItem>, t: Time)
    : (Store, Result<nat, StoreError>)
  {
    if Strip(reason) == "" then (st, Err(EmptyReason))
    else if items == [] then (st, Err(NoItems))
    else if cfg.allowed.Some? && instance !in cfg.allowed.value then (st, Err(UnknownInstance))
    else
      match CleanItems(items)
      case Err(e) => (st, Err(e))
      case Ok(clean) =>
        (st.(rows := st.rows[st.nextId := NewRow(instance, Strip(reason), clean, t)], nextId := st.nextId + 1),
         Ok(st.nextId))
  }

  /** The 1-based choice of items, or the first number out of range. */
  function Choose(items: seq<Item>, numbers: seq<int>): Result<seq<Item>, StoreError> {
    if numbers == [] then Ok([])
    else if numbers[0] < 1 || numbers[0] > |items| then Err(InvalidItemNumber(numbers[0]))
    else
      match Choose(items, numbers[1..])
      case Err(e) => Err(e)
      case Ok(rest) => Ok([items[numbers[0] - 1]] + rest)
  }

  function Chosen(items: seq<Item>, numbers: Option<seq<int>>): Result<seq<Item>, StoreError> {
    if numbers.None? then Ok(items) else Choose(items, numbers.value)
  }

  function Duration(cfg: Config, explicit: Option<Time>): Time { explicit.GetOr(cfg.defaultDuration) }

  function Put(st: Store, id: nat, row: Row): Store { st.(rows := st.rows[id := row]) }

  predicate ChoseNothing(numbers: Option<seq<int>>, items: seq<Item>) { numbers.Some? && items == [] }

  /** The row after an approval of the chosen items; choosing none rejects the batch. */
  function SettledRow(row: Row, numbers: Option<seq<int>>, items: seq<Item>, t: Time, duration: Time): Row {
    if ChoseNothing(numbers, items) then row.(state := Rejected, decidedAt := Some(t), source := PartialEmpty)
    else row.(items := items, state := Active, decidedAt := Some(t), expiresAt := Some(t + duration),
          source := Approval)
  }

  /** approve: t0 is the reading of the state check, t1 the one that dates the decision. */
  function Approve(st: Store, cfg: Config, id: nat, expiry: Option<string>, numbers: Option<seq<int>>, t0: Time,
                   t1: Time)
    : (Store, Result<(), StoreError>)
  {
    if id !in st.rows then (st, Err(UnknownId))
    else
      var row := st.rows[id];
      if StateAt(row, cfg, t0) != Pending then (st, Err(AlreadyDecided(StateAt(row, cfg, t1))))
      else if Replies.ParseExpiry(expiry).Err? then (st, Err(InvalidExpiry))
      else if Chosen(row.items, numbers).Err? then (st, Err(Chosen(row.items, numbers).error))
      else
        (Put(st, id, SettledRow(row, numbers, Chosen(row.items, numbers).value, t1,
                                Duration(cfg, Replies.ParseExpiry(expiry).value))), Ok(()))
  }

  function Reject(st: Store, cfg: Config, id: nat, t0: Time, t1: Time): (Store, Result<(), StoreError>) {
    if id !in st.rows then (st, Err(UnknownId))
    else
      var row := st.rows[id];
      if StateAt(row, cfg, t0) != Pending then (st, Err(AlreadyDecided(StateAt(row, cfg, t1))))
      else (Put(st, id, row.(state := Rejected, decidedAt := Some(t1), source := Rejection)), Ok(()))
  }

  function Revoke(st: Store, cfg: Config, id: nat, t0: Time, t1: Time): (Store, Result<(), StoreError>) {
    if id !in st.rows then (st, Err(UnknownId))
    else
      var row := st.rows[id];
      match StateAt(row, cfg, t0)
      case Pending => (Put(st, id, row.(state := Rejected, decidedAt := Some(t1), source := PendingRevoke)), Ok(()))
      case Active => (Put(st, id, row.(state := Revoked, source := Revocation)), Ok(()))
      case other => (st, Err(AlreadyDecided(other)))
  }

  /** Clock readings that approve and reject take; the last one dates the record returned. */
  function DecisionReads(st: Store, cfg: Config, id: nat, t0: Time, done: bool): nat {
    if id !in st.rows then 0 else if StateAt(st.rows[id], cfg, t0) != Pending then 2 else if done then 3 else 1
  }

  function RevokeReads(st: Store, cfg: Config, id: nat, t0: Time): nat {
    if id !in st.rows then 0
    else match StateAt(st.rows[id], cfg, t0) case Pending => 3 case Active => 2 case _ => 1
  }

  function DiscardRow(row: Row): Row {
    if row.state == Pending then row.(state := Rejected, source := RestartDiscard) else row
  }

  /** The restart rule: no pending request survives reopening the database. */
  function Discard(st: Store): Store {
    st.(rows := map id | id in st.rows :: DiscardRow(st.rows[id]))
  }

  function RecordPosted(st: Store, event: string, id: nat): (Store, Result<(), StoreError>) {
    if event in st.posted then (st, Err(DuplicateEvent)) else (st.(posted := st.posted[event := id]), Ok(()))
  }

  /** Items already collected, in front of what the rest of the list yields. */
  function Prepend(head: seq<Item>, r: Result<seq<Item>, StoreError>): Result<seq<Item>, StoreError> {
    match r case Err(e) => Err(e) case Ok(rest) => Ok(head + rest)
  }

  lemma PrependNothing(r: Result<seq<Item>, StoreError>)
    ensures Prepend([], r) == r
  {
    if r.Ok? {
      assert [] + r.value == r.value;
    }
  }

  lemma PrependOne(head: seq<Item>, one: Item, r: Result<seq<Item>, StoreError>)
    ensures Prepend(head, Prepend([one], r)) == Prepend(head + [one], r)
  {
    if r.Ok? {
      assert head + ([one] + r.value) == head + [one] + r.value;
    }
  }

  // ------------------------------------------------------------- the store object

  class GrantStore {
    const cfg: Config
    const clock: Clock
    var rows: map<nat, Row>
    var nextId: nat
    var posted: map<string, nat>

    function Model(): Store
      reads this
    {
      Store(rows, nextId, posted)
    }

    /** Opening a database file applies the restart rule before anything else. */
    constructor (db: Store, cfg: Config, clock: Clock)
      ensures Model() == Discard(db) && this.cfg == cfg && this.clock == clock
    {
      this.cfg := cfg;
      this.clock := clock;
      rows := Discard(db).rows;
      nextId := db.nextId;
      posted := db.posted;
    }

    /** The validation loop of create_request. */
    static method Clean(items: seq<RawItem>) returns (r: Result<seq<Item>, StoreError>)
      ensures r == CleanItems(items)
    {
      var clean: seq<Item> := [];
      PrependNothing(CleanItems(items));
      for i := 0 to |items|
        invariant CleanItems(items) == Prepend(clean, CleanItems(items[i..]))
      {
        var item := items[i];
        assert items[i..][0] == item && items[i..][1..] == items[i + 1..];
        if !KnownMode(item.mode) {
          return Err(InvalidMode);
        }
        if item.path.None? {
          return Err(InvalidPath);
        }
        var norm := NormalizePath(item.path.value);
        if norm.None? {
          return Err(InvalidPath);
        }
        PrependOne(clean, Item(norm.value, item.mode), CleanItems(items[i + 1..]));
        clean := clean + [Item(norm.value, item.mode)];
      }
      assert clean + [] == clean;
      return Ok(clean);
    }

    static method SelectItems(items: seq<Item>, numbers: Option<seq<int>>) returns (r: Result<seq<Item>, StoreError>)
      ensures r == Chosen(items, numbers)
    {
      if numbers.None? {
        return Ok(items);
      }
      r := Select(items, numbers.value);
    }

    /** The selection loop of approve. */
    static method Select(items: seq<Item>, ns: seq<int>) returns (r: Result<seq<Item>, StoreError>)
      ensures r == Choose(items, ns)
    {
      var chosen: seq<Item> := [];
      PrependNothing(Choose(items, ns));
      for i := 0 to |ns|
        invariant Choose(items, ns) == Prepend(chosen, Choose(items, ns[i..]))
      {
        assert ns[i..][0] == ns[i] && ns[i..][1..] == ns[i + 1..];
        if ns[i] < 1 || ns[i] > |items| {
          return Err(InvalidItemNumber(ns[i]));
        }
        PrependOne(chosen, items[ns[i] - 1], Choose(items, ns[i + 1..]));
        chosen := chosen + [items[ns[i] - 1]];
      }
      assert chosen + [] == chosen;
      return Ok(chosen);
    }

    method CreateRequest(instance: string, reason: string, items: seq<RawItem>)
      returns (r: Result<GrantRecord, StoreError>)
      modifies this, clock
      ensures var (st, id) := Create(old(Model()), cfg, instance, reason, items, clock.readings(old(clock.next)));
              && Model() == st
              && (id.Err? ==> r == Err(id.error) && clock.next == old(clock.next))
              && (id.Ok? ==> clock.next == old(clock.next) + 2 && r.Ok? &&
                             r == Get(st, cfg, id.value, clock.readings(old(clock.next) + 1)))
    {
      hide CleanItems, StateAt;
      if Strip(reason) == "" {
        return Err(EmptyReason);
      }
      if items == [] {
        return Err(NoItems);
      }
      if cfg.allowed.Some? && instance !in cfg.allowed.value {
        return Err(UnknownInstance);
      }
      var clean := Clean(items);
      if clean.Err? {
        return Err(clean.error);
      }
      var now := clock.Now();
      var id := nextId;
      rows := rows[id := NewRow(instance, Strip(reason), clean.value, now)];
      nextId := nextId + 1;
      r := GetRecord(id);
    }

    /** get: the record with its effective state, or an error for unknown ids. */
    method GetRecord(id: nat) returns (r: Result<GrantRecord, StoreError>)
      modifies clock
      ensures r == Get(Model(), cfg, id, clock.readings(old(clock.next)))
      ensures clock.next == old(clock.next) + (if id in rows then 1 else 0)
    {
      if id !in rows {
        return Err(UnknownId);
      }
      var now := clock.Now();
      r := Ok(RecordAt(id, rows[id], cfg, now));
    }

    /** The one-time-use guard. On a decided row the error reads the clock again. */
    method AssertPending(id: nat) returns (r: Result<Row, StoreError>)
      modifies clock
      ensures id !in rows ==> r == Err(UnknownId) && clock.next == old(clock.next)
      ensures id in rows && StateAt(rows[id], cfg, clock.readings(old(clock.next))) == Pending ==>
                r == Ok(rows[id]) && clock.next == old(clock.next) + 1
      ensures id in rows && StateAt(rows[id], cfg, clock.readings(old(clock.next))) != Pending ==>
                r == Err(AlreadyDecided(StateAt(rows[id], cfg, clock.readings(old(clock.next) + 1)))) &&
                clock.next == old(clock.next) + 2
    {
      if id !in rows {
        return Err(UnknownId);
      }
      var row := rows[id];
      var now := clock.Now();
      if StateAt(row, cfg, now) != Pending {
        now := clock.Now();
        return Err(AlreadyDecided(StateAt(row, cfg, now)));
      }
      return Ok(row);
    }

    method ApproveRequest(id: nat, expiry: Option<string>, numbers: Option<seq<int>>)
      returns (r: Result<GrantRecord, StoreError>)
      modifies this, clock
      ensures var k := old(clock.next);
              var (st, done) := Approve(old(Model()), cfg, id, expiry, numbers, clock.readings(k),
                    clock.readings(k + 1));
              && Model() == st
              && clock.next == k + DecisionReads(old(Model()), cfg, id, clock.readings(k), done.Ok?)
              && (done.Err? ==> r == Err(done.error))
              && (done.Ok? ==> r.Ok? && id in st.rows && r == Get(st, cfg, id, clock.readings(k + 2)))
    {
      var guard := AssertPending(id);
      if guard.Err? {
        return Err(guard.error);
      }
      var row := guard.value;
      var parsed := Replies.ParseExpiry(expiry);
      if parsed.Err? {
        return Err(InvalidExpiry);
      }
      var chosen := SelectItems(row.items, numbers);
      if chosen.Err? {
        return Err(chosen.error);
      }
      r := Settle(id, numbers, chosen.value, Duration(cfg, parsed.value));
    }

    /** The write at the end of approve. */
    method Settle(id: nat, numbers: Option<seq<int>>, items: seq<Item>, duration: Time)
      returns (r: Result<GrantRecord, StoreError>)
      requires id in rows
      modifies this, clock
      ensures var k := old(clock.next);
              && Model() == Put(old(Model()), id, SettledRow(old(rows[id]), numbers, items, clock.readings(k),
                    duration))
              && clock.next == k + 2 && r == Get(Model(), cfg, id, clock.readings(k + 1))
    {
      var row := rows[id];
      var now := clock.Now();
      if numbers.Some? && items == [] {
        rows := rows[id := row.(state := Rejected, decidedAt := Some(now), source := PartialEmpty)];
      } else {
        rows := rows[id := row.(items := items, state := Active, decidedAt := Some(now),
                                expiresAt := Some(now + duration), source := Approval)];
      }
      r := GetRecord(id);
    }

    method RejectRequest(id: nat) returns (r: Result<GrantRecord, StoreError>)
      modifies this, clock
      ensures var k := old(clock.next);
              var (st, done) := Reject(old(Model()), cfg, id, clock.readings(k), clock.readings(k + 1));
              && Model() == st
              && clock.next == k + DecisionReads(old(Model()), cfg, id, clock.readings(k), done.Ok?)
              && (done.Err? ==> r == Err(done.error))
              && (done.Ok? ==> r == Get(st, cfg, id, clock.readings(k + 2)))
    {
      var guard := AssertPending(id);
      if guard.Err? {
        return Err(guard.error);
      }
      var now := clock.Now();
      rows := rows[id := guard.value.(state := Rejected, decidedAt := Some(now), source := Rejection)];
      r := GetRecord(id);
    }

    method RevokeGrant(id: nat) returns (r: Result<GrantRecord, StoreError>)
      modifies this, clock
      ensures var k := old(clock.next);
              var (st, done) := Revoke(old(Model()), cfg, id, clock.readings(k), clock.readings(k + 1));
              && Model() == st
              && clock.next == k + RevokeReads(old(Model()), cfg, id, clock.readings(k))
              && (done.Err? ==> r == Err(done.error))
              && (done.Ok? ==> id in st.rows && clock.next > 0 && r == Get(st, cfg, id, clock.readings(clock.next - 1)))
    {
      if id !in rows {
        return Err(UnknownId);
      }
      var row := rows[id];
      var now := clock.Now();
      var effective := StateAt(row, cfg, now);
      if effective == Pending {
        var decided := clock.Now();
        rows := rows[id := row.(state := Rejected, decidedAt := Some(decided), source := PendingRevoke)];
      } else if effective == Active {
        rows := rows[id := row.(state := Revoked, source := Revocation)];
      } else {
        return Err(AlreadyDecided(effective));
      }
      r := GetRecord(id);
    }

    method ListActive(instance: Option<string>) returns (out: seq<GrantRecord>)
      modifies clock
      ensures (out, clock.next) == ActiveGrants(Model(), cfg, instance, clock.readings, old(clock.next))
    {
      out := [];
      var id := 1;
      assert forall rest: seq<GrantRecord> :: [] + rest == rest;
      while id < nextId
        invariant rows == old(rows) && nextId == old(nextId) && posted == old(posted)
        invariant ActiveGrants(Model(), cfg, instance, clock.readings, old(clock.next)) ==
                  var (rest, k) := ActiveFrom(Model(), cfg, instance, id, clock.readings, clock.next);
                  (out + rest, k)
      {
        if id in rows && Candidate(rows[id], instance) {
          ghost var (rest, k) := ActiveFrom(Model(), cfg, instance, id + 1, clock.readings, clock.next + 1);
          var now := clock.Now();
          var rec := RecordAt(id, rows[id], cfg, now);
          if rec.state == Active {
            assert out + ([rec] + rest) == out + [rec] + rest;
            out := out + [rec];
          }
        }
        id := id + 1;
      }
      assert out + [] == out;
    }

    method PendingRecords() returns (out: seq<GrantRecord>)
      modifies clock
      ensures (out, clock.next) == PendingFrom(Model(), cfg, 1, clock.readings, old(clock.next))
    {
      out := [];
      var id := 1;
      assert forall rest: seq<GrantRecord> :: [] + rest == rest;
      while id < nextId
        invariant rows == old(rows) && nextId == old(nextId) && posted == old(posted)
        invariant PendingFrom(Model(), cfg, 1, clock.readings, old(clock.next)) ==
                  var (rest, k) := PendingFrom(Model(), cfg, id, clock.readings, clock.next);
                  (out + rest, k)
      {
        if id in rows && rows[id].state == Pending {
          ghost var (rest, k) := PendingFrom(Model(), cfg, id + 1, clock.readings, clock.next + 1);
          var rec := GetRecord(id);
          assert out + ([rec.value] + rest) == out + [rec.value] + rest;
          out := out + [rec.value];
        }
        id := id + 1;
      }
      assert out + [] == out;
    }

    method Post(event: string, id: nat) returns (r: Result<(), StoreError>)
      modifies this
      ensures (Model(), r) == RecordPosted(old(Model()), event, id)
    {
      if event in posted {
        return Err(DuplicateEvent);
      }
      posted := posted[event := id];
      return Ok(());
    }

    method RequestForEvent(event: string) returns (r: Option<nat>)
      ensures r == if event in posted then Some(posted[event]) else None
    {
      r := if event in posted then Some(posted[event]) else None;
    }
  }
}
