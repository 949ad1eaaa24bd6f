/** Where every request to a server comes from, told in the events of the run alone: which
    request was filed, which yes of the approver granted it, when, and that nothing had
    withdrawn it. */
module Provenance {
  import opened Wrappers
  import opened Clocks
  import opened Paths
  import opened Percent
  import opened Access
  import opened Grants
  import opened Lifecycle
  import opened Layer
  import opened LayerSafety
  import opened Warrants
  import opened Bot
  import opened BotSafety
  import opened Broker
  import opened Attribution
  import Dav
  import Replies
  import Texts

  /** A run: what the environment does, who approves, the servers at the start, the events. */
  datatype History = History(env: Env, approver: string, server: Dav.Server, events: seq<Event>) {
    /** The world before event n. */
    function At(n: nat): World
      requires n <= |events|
    {
      RunOf(env, approver, server, events[..n])
    }

    function Rows(n: nat): map<nat, Row>
      requires n <= |events|
    {
      At(n).desk.store.rows
    }

    /** The clock readings of event n are those from Tick(n) to Tick(n + 1). */
    function Tick(n: nat): nat
      requires n <= |events|
    {
      At(n).desk.tick
    }

    function Calls(n: nat): seq<Call>
      requires n <= |events|
    {
      At(n).plane.calls
    }
  }

  ghost predicate Possible(h: History) { EnvOk(h.env) && Dav.ServerOk(h.server) }

  lemma OneStep(h: History, n: nat)
    requires Possible(h) && n < |h.events|
    ensures h.At(n + 1) == Next(h.env, h.approver, h.At(n), h.events[n])
    ensures WorldOk(h.env, h.approver, h.At(n)) && WorldOk(h.env, h.approver, h.At(n + 1))
    ensures WorldLater(h.env, h.approver, h.At(n), h.At(n + 1))
  {
    hide WorldOk, WorldLater, Next;
    assert h.events[..n + 1][..n] == h.events[..n];
    RunsOk(h.env, h.approver, h.server, h.events[..n]);
    RunsOk(h.env, h.approver, h.server, h.events[..n + 1]);
    NextKeeps(h.env, h.approver, h.At(n), h.events[n]);
  }

  lemma Forward(h: History, m: nat, n: nat)
    requires Possible(h) && m <= n <= |h.events|
    ensures WorldLater(h.env, h.approver, h.At(m), h.At(n))
  {
    assert h.events[..n][..m] == h.events[..m];
    RunsMoveForward(h.env, h.approver, h.server, h.events[..n], m);
  }

  // ------------------------------------------------------ how a row came to be

  /** Event f filed the row, in the form it had right after. */
  ghost predicate FiledBy(h: History, f: nat, id: nat) {
    && f < |h.events| && id !in h.Rows(f) && id in h.Rows(f + 1)
    && FiledAs(h.events[f], h.approver, h.At(f).desk.store, h.Rows(f + 1)[id])
  }

  /** Event m is the approver's yes to the number, and did what it said. */
  ghost predicate GrantedBy(h: History, m: nat, id: nat) {
    && m < |h.events| && id in h.Rows(m) && id in h.Rows(m + 1)
    && Approves(h.events[m], h.approver, h.At(m).desk.store, id)
    && AsAsked(RoomOf(h.env, h.approver), h.Tick(m), NumbersOf(h.events[m]), ExpiryOf(h.events[m]),
               h.Rows(m)[id], h.Rows(m + 1)[id])
  }

  ghost predicate WithdrawnBy(h: History, l: nat, id: nat) {
    l < |h.events| && id in h.Rows(l) && Withdraws(h.events[l], h.approver, h.At(l).desk.store, id)
  }

  /** Each event moves and files rows as its messages say. */
  lemma StepAttributed(h: History, n: nat)
    requires Possible(h) && n < |h.events|
    ensures Attributed(h.events[n], RoomOf(h.env, h.approver), h.At(n).inflight, h.At(n).desk, h.At(n + 1).desk)
  {
    hide WorldOk, WorldLater, Next, Attributed;
    OneStep(h, n);
    EveryMoveAttributed(h.env, h.approver, h.At(n), h.events[n]);
  }

  lemma RowStep(h: History, n: nat, id: nat)
    requires Possible(h) && n < |h.events| && id in h.Rows(n + 1)
    ensures if id in h.Rows(n) then
              h.Rows(n + 1)[id] == h.Rows(n)[id] || GrantedBy(h, n, id) || Settled(h.Rows(n + 1)[id])
            else FiledBy(h, n, id)
  {
    StepAttributed(h, n);
    hide Approves, AsAsked, Closes, FiledAs, RunOf;
  }

  lemma FiledPending(h: History, f: nat, id: nat)
    requires FiledBy(h, f, id)
    ensures h.Rows(f + 1)[id].state == Pending
  {
    hide RunOf, CleanItems;
  }

  /** A granted row was granted by some event, and has not changed since. */
  lemma {:induction false} ActiveSince(h: History, n: nat, id: nat) returns (m: nat)
    requires Possible(h) && n <= |h.events| && id in h.Rows(n) && h.Rows(n)[id].state == Active
    ensures m < n && GrantedBy(h, m, id)
    ensures forall l | m < l <= n :: id in h.Rows(l) && h.Rows(l)[id] == h.Rows(n)[id]
    decreases n
  {
    hide RunOf, GrantedBy, FiledBy;
    if n == 0 {
      NoRowsAtFirst(h);
      assert false;
    } else {
      RowStep(h, n - 1, id);
      if id !in h.Rows(n - 1) {
        FiledPending(h, n - 1, id);
        assert false;
      } else if h.Rows(n)[id] == h.Rows(n - 1)[id] {
        m := ActiveSince(h, n - 1, id);
      } else {
        m := n - 1;
      }
    }
  }

  lemma NoRowsAtFirst(h: History)
    ensures h.Rows(0) == map[]
  {
  }

  lemma {:induction false} FiledFirst(h: History, n: nat, id: nat) returns (f: nat)
    requires Possible(h) && n <= |h.events| && id in h.Rows(n)
    ensures f < n && FiledBy(h, f, id)
    decreases n
  {
    hide RunOf, GrantedBy, FiledBy;
    if n == 0 {
      NoRowsAtFirst(h);
      assert false;
    } else {
      RowStep(h, n - 1, id);
      if id in h.Rows(n - 1) {
        f := FiledFirst(h, n - 1, id);
      } else {
        f := n - 1;
      }
    }
  }

  /** A row that is still pending is as it was filed. */
  lemma PendingAsFiled(h: History, f: nat, m: nat, id: nat)
    requires Possible(h) && f < m <= |h.events| && FiledBy(h, f, id)
    requires id in h.Rows(m) && h.Rows(m)[id].state == Pending
    ensures h.Rows(m)[id] == h.Rows(f + 1)[id]
  {
    Forward(h, f + 1, m);
    hide RunOf;
    var room, a, b := RoomOf(h.env, h.approver), h.At(f + 1).desk, h.At(m).desk;
    assert RowEvolves(a.store.rows[id], room.clock(a.tick), b.store.rows[id], room.clock(b.tick), room.cfg);
  }

  /** While a row can be seen active nothing has withdrawn it. */
  lemma NotWithdrawn(h: History, l: nat, n: nat, id: nat, r: nat)
    requires Possible(h) && l < n <= |h.events| && id in h.Rows(l) && id in h.Rows(l + 1) && h.Tick(n) <= r
    requires StateAt(h.Rows(l + 1)[id], h.env.cfg, h.env.clock(r)) == Active
    ensures !WithdrawnBy(h, l, id)
  {
    OneStep(h, l);
    Forward(h, l + 1, n);
    hide RunOf, Next, StateAt, Withdraws, NeverActiveFrom;
    if WithdrawnBy(h, l, id) {
      WithdrawalEnds(h.env, h.approver, h.At(l), h.events[l], id);
      NotSeenActive(RoomOf(h.env, h.approver), h.Rows(l + 1)[id], h.Tick(l + 1), r);
    }
  }

  lemma NotSeenActive(room: Room, row: Row, k: nat, r: nat)
    requires NeverActiveFrom(room, row, k) && Monotone(room.clock) && k <= r
    ensures StateAt(row, room.cfg, room.clock(r)) != Active
  {
  }

  // --------------------------------------------------------- end-to-end safety

  /** Event f filed number id; event m, the approver's yes, granted it with this item on
      the instance; the item covers the path in a mode that suffices; at time t the grant
      had been made and had not run out; and nothing before event n had withdrawn it. */
  ghost predicate EntitledBefore(h: History, n: nat, f: nat, m: nat, id: nat, it: Item, instance: string, norm: string,
                                 mode: string, t: Time)
  {
    && f < m < n <= |h.events| && FiledBy(h, f, id) && GrantedBy(h, m, id)
    && it in h.Rows(f + 1)[id].items && it in h.Rows(m + 1)[id].items && h.Rows(m + 1)[id].instance == instance
    && ItemCovers(it, norm) && (it.mode == "read" || it.mode == "write") && (mode == "write" ==> it.mode == "write")
    && (NoEscape(it.path) && NoEscape(norm) ==> PathOf(it.path) <= PathOf(norm))
    && h.Rows(m + 1)[id].decidedAt.value <= t < h.Rows(m + 1)[id].expiresAt.value
    && forall l | m < l < n :: !WithdrawnBy(h, l, id)
  }

  /** What the request touches here is entitled, at one of the readings of event n. */
  ghost predicate NeedEntitled(h: History, n: nat, instance: string, need: (Dav.Path, string))
    requires n < |h.events|
  {
    && AddressOk(instance, need.0)
    && exists f: nat, m: nat, id: nat, it: Item, norm: string, r: nat ::
         h.Tick(n) <= r < h.Tick(n + 1) && Texts.Join(need.0[1..], '/') == norm &&
         (NoEscape(it.path) && NoEscape(norm) ==> PathOf(it.path) <= need.0[1..]) &&
         EntitledBefore(h, n, f, m, id, it, instance, norm, need.1, h.env.clock(r))
  }

  ghost predicate RequestEntitled(h: History, n: nat, instance: string, req: Dav.Request)
    requires n < |h.events|
  {
    forall need | need in NeedsOf(req) :: NeedEntitled(h, n, instance, need)
  }

  lemma ChosenWere(all: seq<Item>, numbers: Option<seq<int>>, items: seq<Item>, it: Item)
    requires ChosenItems(all, numbers, items) && it in items
    ensures it in all
  {
    var i :| 0 <= i < |items| && items[i] == it;
    if numbers.Some? {
      assert items[i] == all[numbers.value[i] - 1];
    }
  }

  /** A live row before event n is an entitlement at its readings. */
  lemma LiveIsEntitled(h: History, n: nat, id: nat, it: Item, w: Warrant, r: nat) returns (f: nat, m: nat)
    requires Possible(h) && n < |h.events| && h.Tick(n) <= r && w.at == h.env.clock(r)
    requires id in h.Rows(n) && Authority(h.Rows(n)[id], it, w) && Guarded(w.norm)
    ensures EntitledBefore(h, n, f, m, id, it, w.instance, w.norm, w.mode, w.at)
  {
    hide RunOf, FiledBy, ItemCovers, Lifetime, ChosenItems, Approves;
    m := ActiveSince(h, n, id);
    f := FiledFirst(h, m, id);
    PendingAsFiled(h, f, m, id);
    var row := h.Rows(n)[id];
    assert h.Rows(m + 1)[id] == row;
    ChosenWere(h.Rows(m)[id].items, NumbersOf(h.events[m]), row.items, it);
    DecidedBefore(h, m, n, id, r);
    forall l | m < l < n ensures !WithdrawnBy(h, l, id) {
      assert h.Rows(l + 1)[id] == row && h.Rows(l)[id] == row;
      NotWithdrawn(h, l, n, id, r);
    }
    if NoEscape(it.path) && NoEscape(w.norm) {
      StoredItemOk(h, n, id, it);
      CoversIsPrefix(it, w.norm);
    }
  }

  lemma DecidedBefore(h: History, m: nat, n: nat, id: nat, r: nat)
    requires Possible(h) && m < n <= |h.events| && GrantedBy(h, m, id) && h.Tick(n) <= r
    ensures h.Rows(m + 1)[id].decidedAt.value <= h.env.clock(r)
  {
    ApprovalReads(h, m, id);
    Forward(h, m + 1, n);
    hide RunOf;
    assert h.env.clock(h.Tick(m) + 1) <= h.env.clock(r);
  }

  /** The approving event made the reading that dates its decision. */
  lemma ApprovalReads(h: History, m: nat, id: nat)
    requires Possible(h) && GrantedBy(h, m, id)
    ensures h.Tick(m) + 1 < h.Tick(m + 1)
  {
    OneStep(h, m);
    ApprovingReads(h.env, h.approver, h.At(m), h.events[m], id);
  }

  lemma StoredItemOk(h: History, n: nat, id: nat, it: Item)
    requires Possible(h) && n < |h.events| && id in h.Rows(n) && it in h.Rows(n)[id].items
    ensures ItemOk(it)
  {
    OneStep(h, n);
    hide RunOf, Next;
    DeskStore(RoomOf(h.env, h.approver), h.At(n).desk);
    assert RowOk(h.Rows(n)[id], h.env.cfg);
  }

  /** Event n made request k. */
  ghost predicate MadeBy(h: History, n: nat, k: nat) {
    n < |h.events| && h.events[n].Operate? && |h.Calls(n)| <= k < |h.Calls(n + 1)|
  }

  lemma OnlyOperateCalls(env: Env, approver: string, w: World, e: Event)
    requires WorldOk(env, approver, w) && !e.Operate?
    ensures Next(env, approver, w, e).plane.calls == w.plane.calls
  {
    hide DeskOk, AskFor, Deliver, HandleReaction, HandleReply, Sweep, Restart;
    if e.NewProcess? {
      ReopenedSame(env, w.plane);
    }
  }

  lemma {:induction false} CallMade(h: History, n: nat, k: nat) returns (j: nat)
    requires Possible(h) && n <= |h.events| && k < |h.Calls(n)|
    ensures j < n && MadeBy(h, j, k)
    decreases n
  {
    hide RunOf, Next, WorldOk;
    if n == 0 {
      NoCallsAtFirst(h);
      assert false;
    } else if k < |h.Calls(n - 1)| {
      j := CallMade(h, n - 1, k);
    } else {
      OneStep(h, n - 1);
      if !h.events[n - 1].Operate? {
        OnlyOperateCalls(h.env, h.approver, h.At(n - 1), h.events[n - 1]);
        assert false;
      }
      j := n - 1;
    }
  }

  lemma NoCallsAtFirst(h: History)
    ensures h.Calls(0) == []
  {
  }

  /** A request as its event made it. */
  lemma CallFineThen(h: History, n: nat, k: nat)
    requires Possible(h) && MadeBy(h, n, k)
    ensures CallFine(h.env, h.At(n).desk.store, h.Tick(n), h.Tick(n + 1), h.Calls(n + 1)[k])
  {
    hide RunOf, WorldOk, WorldLater, Next, OperateStep, CallFine;
    OneStep(h, n);
    NextOperates(h.env, h.approver, h.At(n), h.events[n]);
    OperateMakesFine(h.env, h.approver, h.At(n), h.events[n].instance, h.events[n].verb, k);
  }

  lemma NextOperates(env: Env, approver: string, w: World, e: Event)
    requires e.Operate?
    ensures Next(env, approver, w, e) == OperateStep(env, w, e.instance, e.verb)
  {
    hide OperateStep;
  }

  lemma OperateMakesFine(env: Env, approver: string, w: World, instance: string, verb: Verb, k: nat)
    requires WorldOk(env, approver, w) && EnvOk(env)
    requires |w.plane.calls| <= k < |OperateStep(env, w, instance, verb).plane.calls|
    ensures var w' := OperateStep(env, w, instance, verb);
            CallFine(env, w.desk.store, w.desk.tick, w'.desk.tick, w'.plane.calls[k])
  {
    DeskStore(RoomOf(env, approver), w.desk);
    hide CallFine, Run, PlaneOk, DeskOk, StoreOk;
    RunKeeps(env, w.desk.store, w.desk.tick, w.plane, instance, verb);
  }

  lemma NeedIsEntitled(h: History, n: nat, c: Call, need: (Dav.Path, string), w: Warrant)
    requires Possible(h) && n < |h.events| && AddressOk(c.instance, need.0) && Meets(c.instance, need, w)
    requires WarrantFine(h.env, h.At(n).desk.store, h.Tick(n), h.Tick(n + 1), w)
    ensures NeedEntitled(h, n, c.instance, need)
  {
    hide RunOf, EntitledBefore, Authority, AddressOk, EnvOk, Dav.ServerOk;
    var st := h.At(n).desk.store;
    var id, it :| id in st.rows && Authority(st.rows[id], it, w);
    var r: nat :| h.Tick(n) <= r < h.Tick(n + 1) && w.at == h.env.clock(r);
    var f, m := LiveIsEntitled(h, n, id, it, w, r);
    ModeDown(h, n, f, m, id, it, w, need.1);
    SpelledOut(c.instance, need.0, w.norm);
    EscapeFreePrefix(h, n, f, m, id, it, w, need.1);
  }

  lemma SpelledOut(instance: string, addr: Dav.Path, norm: string)
    requires Addresses(addr, instance, norm)
    ensures addr[1..] == PathOf(norm)
  {
    PathOfJoin(addr[1..]);
  }

  lemma EscapeFreePrefix(h: History, n: nat, f: nat, m: nat, id: nat, it: Item, w: Warrant, mode: string)
    requires EntitledBefore(h, n, f, m, id, it, w.instance, w.norm, mode, w.at)
    ensures NoEscape(it.path) && NoEscape(w.norm) ==> PathOf(it.path) <= PathOf(w.norm)
  {
    hide RunOf, FiledBy, GrantedBy, ItemCovers;
  }

  lemma FineIsEntitled(h: History, n: nat, c: Call)
    requires Possible(h) && n < |h.events| && CallFine(h.env, h.At(n).desk.store, h.Tick(n), h.Tick(n + 1), c)
    ensures IsDiscovery(h.env, c.instance, c.req) || RequestEntitled(h, n, c.instance, c.req)
  {
    hide RunOf, NeedEntitled, WarrantFine, IsDiscovery, EnvOk, Dav.ServerOk, AddressOk;
    if !IsDiscovery(h.env, c.instance, c.req) {
      forall need | need in NeedsOf(c.req) ensures NeedEntitled(h, n, c.instance, need) {
        var w :| w in c.warrants && Meets(c.instance, need, w);
        NeedIsEntitled(h, n, c, need, w);
      }
    }
  }

  lemma ModeDown(h: History, n: nat, f: nat, m: nat, id: nat, it: Item, w: Warrant, mode: string)
    requires EntitledBefore(h, n, f, m, id, it, w.instance, w.norm, w.mode, w.at) && ModeSuffices(w.mode, mode)
    ensures EntitledBefore(h, n, f, m, id, it, w.instance, w.norm, mode, w.at)
  {
    hide RunOf, FiledBy, GrantedBy, ItemCovers;
  }

  /** The end-to-end theorem. In every run each request to a server belongs to a file
      operation of the run, goes to a configured instance, and is a discovery listing or
      entitled: every address it touches lies under an item that an earlier event filed
      and the approver's own yes to that number granted, in a mode that suffices; the
      operation read the clock after that yes and before the lifetime it named was over;
      and no revoke of the number and no mass revocation came between. */
  lemma EveryCallEntitled(h: History, k: nat)
    requires Possible(h) && k < |h.Calls(|h.events|)|
    ensures var c := h.Calls(|h.events|)[k];
            c.instance in h.env.clients &&
            exists n :: MadeBy(h, n, k) &&
                        (IsDiscovery(h.env, c.instance, c.req) || RequestEntitled(h, n, c.instance, c.req))
  {
    hide RunOf, IsDiscovery, RequestEntitled;
    var n := CallMade(h, |h.events|, k);
    CallFineThen(h, n, k);
    Forward(h, n + 1, |h.events|);
    assert h.Calls(n + 1)[k] == h.Calls(|h.events|)[k];
    FineIsEntitled(h, n, h.Calls(n + 1)[k]);
  }
}
