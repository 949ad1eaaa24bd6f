/** Who can move a row, and that whoever may does: every change of a stored row, in any
    step of the broker, is the doing of one message of the approver that names it, of a
    mass revocation that includes it, of a restart, or of a lost message; and every such
    message takes effect. */
module Attribution {
  import opened Wrappers
  import opened Clocks
  import opened Grants
  import opened Lifecycle
  import opened Layer
  import opened LayerSafety
  import opened Bot
  import opened BotSafety
  import opened Broker
  import Replies
  import Texts

  // --------------------------------------------------------- what events say

  /** The event is the approver's yes to this number. */
  predicate Approves(e: Event, approver: string, st: Store, id: nat) {
    match e
    case React(sender, event, emoji) =>
      sender == approver && emoji == APPROVE_EMOJI && event in st.posted && st.posted[event] == id
    case Reply(sender, text) =>
      var r := Replies.ParseReply(text);
      sender == approver && r.Verdict? && r.action.ApproveIt? && r.id == id
    case _ => false
  }

  /** The event is the approver's reject of this number. */
  predicate Rejects(e: Event, approver: string, st: Store, id: nat) {
    match e
    case React(sender, event, emoji) =>
      sender == approver && emoji == REJECT_EMOJI && event in st.posted && st.posted[event] == id
    case Reply(sender, text) =>
      var r := Replies.ParseReply(text);
      sender == approver && r.Verdict? && r.action.RejectIt? && r.id == id
    case _ => false
  }

  /** The event is the approver's revoke of this number. */
  predicate Revokes(e: Event, approver: string, st: Store, id: nat) {
    match e
    case React(sender, event, emoji) =>
      sender == approver && emoji == REVOKE_EMOJI && event in st.posted && st.posted[event] == id
    case Reply(sender, text) =>
      var r := Replies.ParseReply(text);
      sender == approver && r.Verdict? && r.action.RevokeIt? && r.id == id
    case _ => false
  }

  /** The event is the approver's mass revocation of everything, or of this instance. */
  predicate RevokesAllOn(e: Event, approver: string, instance: string) {
    e.Reply? && e.sender == approver &&
    (Replies.ParseReply(e.text).RevokeAll? || Replies.ParseReply(e.text) == Replies.RevokeInstance(instance))
  }

  /** What withdraws a grant: a revoke of its number, or a mass revocation it falls under. */
  predicate Withdraws(e: Event, approver: string, st: Store, id: nat)
    requires id in st.rows
  {
    Revokes(e, approver, st, id) || RevokesAllOn(e, approver, st.rows[id].instance)
  }

  /** What ends a row: a single no or revoke, a mass revocation while it is granted, a
      restart while it is open, or the news that the message of an agent's request never
      reached the room. */
  predicate Closes(e: Event, approver: string, inflight: map<nat, bool>, st: Store, id: nat)
    requires id in st.rows
  {
    var row := st.rows[id];
    || Rejects(e, approver, st, id)
    || Revokes(e, approver, st, id)
    || (row.state == Active && RevokesAllOn(e, approver, row.instance))
    || (row.state == Pending && e.NewProcess?)
    || (row.state == Pending && e.Answered? && e.id == id && e.post.Unreachable? && id in inflight && inflight[id])
  }

  /** The item numbers and the expiry of an approving event; a reaction has neither. */
  function NumbersOf(e: Event): Option<seq<nat>> {
    if e.Reply? && Replies.ParseReply(e.text).Verdict? then Replies.ParseReply(e.text).items else None
  }

  function ExpiryOf(e: Event): Option<string> {
    if e.Reply? && Replies.ParseReply(e.text).Verdict? then Replies.ParseReply(e.text).expiry else None
  }

  /** row' is what the approver asked for: these items of the request, for this long from
      the reading after the desk's next. */
  predicate AsAsked(room: Room, tick: nat, numbers: Option<seq<int>>, expiry: Option<string>, row: Row, row': Row) {
    && row.state == Pending && row'.state == Active && row'.instance == row.instance
    && row'.decidedAt == Some(room.clock(tick + 1)) && row'.expiresAt.Some?
    && ChosenItems(row.items, numbers, row'.items)
    && Lifetime(room.cfg, expiry, row'.expiresAt.value - row'.decidedAt.value)
  }

  /** The event files this row: an agent's request, or an undo of the approver's. */
  predicate FiledAs(e: Event, approver: string, st: Store, row: Row) {
    match e
    case Ask(instance, _, items) =>
      row.state == Pending && row.instance == instance && CleanItems(items) == Ok(row.items)
    case Reply(sender, text) =>
      var r := Replies.ParseReply(text);
      sender == approver && r.Undo? && r.id in st.rows && Settled(st.rows[r.id]) && row.state == Pending &&
      row.instance == st.rows[r.id].instance && CleanItems(Raw(st.rows[r.id].items)) == Ok(row.items)
    case _ => false
  }

  // --------------------------------------------------- what happens to a row

  predicate Moved(e: Event, room: Room, inflight: map<nat, bool>, d: Desk, st': Store, id: nat)
    requires id in d.store.rows && id in st'.rows
  {
    var row, row' := d.store.rows[id], st'.rows[id];
    || row' == row
    || (Approves(e, room.approver, d.store, id) && AsAsked(room, d.tick, NumbersOf(e), ExpiryOf(e), row, row'))
    || (!Settled(row) && Settled(row') && Closes(e, room.approver, inflight, d.store, id))
  }

  /** The event, applied to the desk, moved rows as Moved allows and filed new ones as
      FiledAs says. */
  ghost predicate Attributed(e: Event, room: Room, inflight: map<nat, bool>, d: Desk, d': Desk) {
    && (forall id | id in d.store.rows :: id in d'.store.rows && Moved(e, room, inflight, d, d'.store, id))
    && (forall id | id in d'.store.rows && id !in d.store.rows :: FiledAs(e, room.approver, d.store, d'.store.rows[id]))
  }

  /** No row but this one, and no new one. */
  predicate MovedOnly(st: Store, st': Store, id: nat) {
    st'.rows.Keys == st.rows.Keys && forall other | other in st.rows && other != id :: st'.rows[other] == st.rows[other]
  }

  lemma MovedOneAttributed(e: Event, room: Room, inflight: map<nat, bool>, d: Desk, d': Desk, id: nat)
    requires MovedOnly(d.store, d'.store, id)
    requires id in d.store.rows ==> Moved(e, room, inflight, d, d'.store, id)
    ensures Attributed(e, room, inflight, d, d')
  {
  }

  lemma DeskStore(room: Room, d: Desk)
    requires DeskOk(room, d)
    ensures StoreOk(d.store, room.cfg)
  {
  }

  // ------------------------------------------------------------- approvals

  /** The approval of a number would go through. */
  ghost predicate Approvable(room: Room, d: Desk, id: nat, numbers: Option<seq<nat>>, expiry: Option<string>) {
    && StandsAt(room, d, id, Pending) && (exists t :: Lifetime(room.cfg, expiry, t))
    && InRange(numbers, |d.store.rows[id].items|)
  }

  lemma SingleApproves(room: Room, d: Desk, id: nat, numbers: Option<seq<nat>>, expiry: Option<string>)
    requires DeskOk(room, d) && Monotone(room.clock) && numbers != Some([])
    ensures var d' := ApproveReq(room, d, id, numbers, expiry);
            && MovedOnly(d.store, d'.store, id)
            && (Approvable(room, d, id, numbers, expiry) ==>
                  AsAsked(room, d.tick, numbers, expiry, d.store.rows[id], d'.store.rows[id]))
            && (!Approvable(room, d, id, numbers, expiry) ==> d'.store == d.store)
  {
    DeskStore(room, d);
    hide *;
    var t0, t1 := room.clock(d.tick), room.clock(d.tick + 1);
    ApproveReqStore(room, d, id, numbers, expiry);
    ApproveMoves(room, d, id, numbers, expiry);
  }

  lemma ApproveReqStore(room: Room, d: Desk, id: nat, numbers: Option<seq<nat>>, expiry: Option<string>)
    ensures ApproveReq(room, d, id, numbers, expiry).store ==
            Approve(d.store, room.cfg, id, expiry, numbers, room.clock(d.tick), room.clock(d.tick + 1)).0
  {
    hide Approve;
  }

  lemma ApproveMoves(room: Room, d: Desk, id: nat, numbers: Option<seq<nat>>, expiry: Option<string>)
    requires StoreOk(d.store, room.cfg) && Monotone(room.clock) && numbers != Some([])
    ensures var st' := Approve(d.store, room.cfg, id, expiry, numbers, room.clock(d.tick), room.clock(d.tick + 1)).0;
            && MovedOnly(d.store, st', id)
            && (Approvable(room, d, id, numbers, expiry) ==>
                  AsAsked(room, d.tick, numbers, expiry, d.store.rows[id], st'.rows[id]))
            && (!Approvable(room, d, id, numbers, expiry) ==> st' == d.store)
  {
    hide Approve, StoreOk, RowOk, Lifetime, ChosenItems, StateAt;
    var t0, t1 := room.clock(d.tick), room.clock(d.tick + 1);
    ApprovalMeaning(d.store, room.cfg, id, expiry, numbers, t0, t1);
    if Approve(d.store, room.cfg, id, expiry, numbers, t0, t1).1.Ok? {
      ApprovedRow(d.store, room.cfg, id, expiry, numbers, t0, t1);
    }
  }

  /** The parser never hands over an empty choice. */
  lemma ChoiceNotEmpty(text: string)
    requires Replies.ParseReply(text).Verdict?
    ensures Replies.ParseReply(text).items != Some([])
  {
  }

  // ----------------------------------------------- what single decisions do

  /** What the event does to the number it names: a yes, a no or a revoke. */
  ghost predicate Decided(e: Event, room: Room, d: Desk, d': Desk, id: nat) {
    && MovedOnly(d.store, d'.store, id)
    && (Approves(e, room.approver, d.store, id) ==>
          if Approvable(room, d, id, NumbersOf(e), ExpiryOf(e)) then
            AsAsked(room, d.tick, NumbersOf(e), ExpiryOf(e), d.store.rows[id], d'.store.rows[id])
          else d'.store == d.store)
    && (Rejects(e, room.approver, d.store, id) ==>
          if StandsAt(room, d, id, Pending) then ClosedAndArmed(room, d, d', id, Rejected) else Untouched(d, d'))
    && (Revokes(e, room.approver, d.store, id) ==>
          if StandsAt(room, d, id, Pending) then ClosedAndArmed(room, d, d', id, Rejected)
          else if StandsAt(room, d, id, Active) then ClosedAndArmed(room, d, d', id, Revoked)
          else Untouched(d, d'))
  }

  predicate Names(e: Event, approver: string, st: Store, id: nat) {
    Approves(e, approver, st, id) || Rejects(e, approver, st, id) || Revokes(e, approver, st, id)
  }

  lemma ReactionDecides(room: Room, d: Desk, e: Event, id: nat)
    requires DeskOk(room, d) && Monotone(room.clock) && e.React? && Names(e, room.approver, d.store, id)
    ensures Decided(e, room, d, HandleReaction(room, d, e.sender, e.event, e.emoji), id)
  {
    hide DeskOk, Later, ApproveReq, RejectReq, RevokeReq, Approvable, AsAsked, StandsAt;
    SingleApproves(room, d, id, None, None);
    RejectReqKeeps(room, d, id);
    RevokeReqKeeps(room, d, id);
  }

  /** A typed verdict: which of the three it is, and the function it runs. */
  lemma VerdictRuns(room: Room, d: Desk, e: Event, id: nat, post: Post)
    requires e.Reply? && Names(e, room.approver, d.store, id)
    ensures var r, d' := Replies.ParseReply(e.text), HandleReply(room, d, e.sender, e.text, post);
            && r.Verdict? && NumbersOf(e) == r.items && ExpiryOf(e) == r.expiry
            && (Approves(e, room.approver, d.store, id) <==> r.action.ApproveIt?)
            && (Rejects(e, room.approver, d.store, id) <==> r.action.RejectIt?)
            && (Revokes(e, room.approver, d.store, id) <==> r.action.RevokeIt?)
            && d' == if id !in d.store.rows then d
                     else match r.action
                          case ApproveIt => ApproveReq(room, d, id, r.items, r.expiry)
                          case RejectIt => RejectReq(room, d, id)
                          case RevokeIt => RevokeReq(room, d, id)
  {
    hide ApproveReq, RejectReq, RevokeReq, Replies.ParseReply;
  }

  lemma ReplyDecides(room: Room, d: Desk, e: Event, id: nat, post: Post)
    requires DeskOk(room, d) && Monotone(room.clock) && e.Reply? && Names(e, room.approver, d.store, id)
    ensures Decided(e, room, d, HandleReply(room, d, e.sender, e.text, post), id)
  {
    hide *;
    VerdictRuns(room, d, e, id, post);
    ChoiceNotEmpty(e.text);
    NobodyThere(room, d, id);
    var r, d' := Replies.ParseReply(e.text), HandleReply(room, d, e.sender, e.text, post);
    match r.action
    case ApproveIt =>
      ApprovableIsThere(room, d, id, r.items, r.expiry);
      SingleApproves(room, d, id, r.items, r.expiry);
      YesDecides(e, room, d, d', id);
    case RejectIt =>
      RejectReqKeeps(room, d, id);
      NoDecides(e, room, d, d', id);
    case RevokeIt =>
      RevokeReqKeeps(room, d, id);
      RevokeDecides(e, room, d, d', id);
  }

  lemma NobodyThere(room: Room, d: Desk, id: nat)
    ensures Untouched(d, d)
    ensures id !in d.store.rows ==> !StandsAt(room, d, id, Pending) && !StandsAt(room, d, id, Active)
  {
  }

  lemma YesDecides(e: Event, room: Room, d: Desk, d': Desk, id: nat)
    requires !Rejects(e, room.approver, d.store, id) && !Revokes(e, room.approver, d.store, id)
    requires MovedOnly(d.store, d'.store, id)
    requires Approvable(room, d, id, NumbersOf(e), ExpiryOf(e)) ==>
               AsAsked(room, d.tick, NumbersOf(e), ExpiryOf(e), d.store.rows[id], d'.store.rows[id])
    requires !Approvable(room, d, id, NumbersOf(e), ExpiryOf(e)) ==> d'.store == d.store
    ensures Decided(e, room, d, d', id)
  {
    hide AsAsked, Approvable, Rejects, Revokes, Approves, NumbersOf, ExpiryOf;
  }

  lemma NoDecides(e: Event, room: Room, d: Desk, d': Desk, id: nat)
    requires !Approves(e, room.approver, d.store, id) && !Revokes(e, room.approver, d.store, id)
    requires if StandsAt(room, d, id, Pending) then ClosedAndArmed(room, d, d', id, Rejected) else Untouched(d, d')
    ensures Decided(e, room, d, d', id)
  {
    hide Rejects, Revokes, Approves;
    ClosedMovesOnly(room, d, d', id, Rejected);
  }

  lemma RevokeDecides(e: Event, room: Room, d: Desk, d': Desk, id: nat)
    requires !Approves(e, room.approver, d.store, id) && !Rejects(e, room.approver, d.store, id)
    requires if StandsAt(room, d, id, Pending) then ClosedAndArmed(room, d, d', id, Rejected)
             else if StandsAt(room, d, id, Active) then ClosedAndArmed(room, d, d', id, Revoked)
             else Untouched(d, d')
    ensures Decided(e, room, d, d', id)
  {
    hide Rejects, Revokes, Approves;
    ClosedMovesOnly(room, d, d', id, Rejected);
    ClosedMovesOnly(room, d, d', id, Revoked);
  }

  lemma ClosedMovesOnly(room: Room, d: Desk, d': Desk, id: nat, state: State)
    ensures ClosedAndArmed(room, d, d', id, state) ==> MovedOnly(d.store, d'.store, id)
  {
  }

  lemma StandsThere(room: Room, d: Desk, id: nat, state: State)
    ensures StandsAt(room, d, id, state) ==> id in d.store.rows
  {
  }

  lemma ApprovableIsThere(room: Room, d: Desk, id: nat, numbers: Option<seq<nat>>, expiry: Option<string>)
    ensures Approvable(room, d, id, numbers, expiry) ==> id in d.store.rows
  {
  }

  /** What one decision leaves, seen from the row. */
  lemma DecidedMoved(e: Event, room: Room, inflight: map<nat, bool>, d: Desk, d': Desk, id: nat)
    requires Decided(e, room, d, d', id) && Names(e, room.approver, d.store, id) && id in d.store.rows
    requires StoreOk(d.store, room.cfg)
    ensures Moved(e, room, inflight, d, d'.store, id)
  {
    hide AsAsked, Approvable, RowOk;
    StandsLive(room, d, id);
  }

  lemma StandsLive(room: Room, d: Desk, id: nat)
    ensures StandsAt(room, d, id, Pending) || StandsAt(room, d, id, Active) ==> !Settled(d.store.rows[id])
  {
  }

  // ---------------------------------------------------- what filing leaves

  lemma NumberIsNew(room: Room, d: Desk)
    requires DeskOk(room, d)
    ensures d.store.nextId !in d.store.rows
  {
  }

  /** Filing up to the message: one new pending row, with the next number. */
  lemma AskStore(room: Room, d: Desk, instance: string, reason: string, items: seq<RawItem>)
    requires DeskOk(room, d) && Monotone(room.clock)
    ensures var (d1, r) := AskFor(room, d, instance, reason, items);
            && DeskOk(room, d1) && (r.Err? ==> d1 == d)
            && (r.Ok? ==>
                  && r.value == d.store.nextId && r.value !in d.store.rows && r.value in d1.store.rows
                  && d1.store.rows == d.store.rows[r.value := d1.store.rows[r.value]]
                  && d1.store.rows[r.value].state == Pending && d1.store.rows[r.value].instance == instance
                  && CleanItems(items) == Ok(d1.store.rows[r.value].items) && d1.store.posted == d.store.posted)
  {
    NumberIsNew(room, d);
    AskKeeps(room, d, instance, reason, items);
    hide DeskOk, Later, CleanItems;
  }

  lemma UndoFiles(room: Room, d: Desk, e: Event, id: nat, post: Post)
    requires DeskOk(room, d) && Monotone(room.clock)
    requires e.Reply? && e.sender == room.approver && Replies.ParseReply(e.text) == Replies.Undo(id)
    ensures Attributed(e, room, map[], d, UndoReq(room, d, id, post).0)
    ensures UndoReq(room, d, id, post).0.store.rows.Keys != d.store.rows.Keys <==> UndoReq(room, d, id, post).1.Some?
  {
    hide DeskOk, UndoReq, CleanItems, Replies.ParseReply;
    UndoSucceeds(room, d, id, post);
    if UndoReq(room, d, id, post).1.Some? {
      UndoCreates(room, d, id, post);
      NumberIsNew(room, d);
    }
  }

  /** What the requester is told, and what is then true: a filed request is pending and
      its message bound to it; a rolled-back one can never be approved; a request whose
      event was taken stays pending without a message of its own. */
  lemma FilingMeaning(room: Room, d: Desk, instance: string, reason: string, items: seq<RawItem>, post: Post)
    requires DeskOk(room, d) && Monotone(room.clock)
    ensures var (d', r) := RequestAccess(room, d, instance, reason, items, post);
            var id := d.store.nextId;
            match r
            case Invalid(_) => d' == d
            case Filed(n) =>
              n == id && id in d'.store.rows && d'.store.rows[id].state == Pending && post.Posted? &&
              post.event !in d.store.posted && d'.store.posted == d.store.posted[post.event := id]
            case RolledBack =>
              post.Unreachable? && d'.store.posted == d.store.posted && id in d'.store.rows &&
              StateAt(d'.store.rows[id], room.cfg, room.clock(d'.tick)) != Pending
            case Unmapped =>
              post.Posted? && post.event in d.store.posted && d'.store.posted == d.store.posted &&
              id in d'.store.rows && d'.store.rows[id].state == Pending
  {
    hide DeskOk, Later, AskFor, RejectRow, PostReq, StateAt, CleanItems;
    AskStore(room, d, instance, reason, items);
    var (d1, r) := AskFor(room, d, instance, reason, items);
    if r.Ok? {
      PostBinds(d1, r.value, post);
      RollbackEnds(room, d1, r.value);
    }
  }

  /** A message binds its event to the request, unless the event is bound already. */
  lemma PostBinds(d: Desk, id: nat, post: Post)
    ensures var (d', p) := PostReq(d, id, post);
            match p
            case Undelivered => post.Unreachable? && d' == d
            case EventTaken => post.Posted? && post.event in d.store.posted && d' == d
            case Delivered =>
              post.Posted? && post.event !in d.store.posted &&
              d'.store == d.store.(posted := d.store.posted[post.event := id])
  {
  }

  /** After the rollback the request cannot be approved: it is rejected, or had timed out
      before the rollback came. */
  lemma RollbackEnds(room: Room, d: Desk, id: nat)
    requires Monotone(room.clock) && id in d.store.rows
    ensures var d' := RejectRow(room, d, id).0;
            id in d'.store.rows && StateAt(d'.store.rows[id], room.cfg, room.clock(d'.tick)) != Pending &&
            d'.store.posted == d.store.posted
  {
  }

  // ------------------------------------------------------- message by message

  lemma MassMoves(room: Room, d: Desk, e: Event, instance: Option<string>)
    requires DeskOk(room, d) && Monotone(room.clock) && e.Reply? && e.sender == room.approver
    requires Replies.ParseReply(e.text) ==
             match instance case None => Replies.RevokeAll case Some(name) => Replies.RevokeInstance(name)
    ensures Attributed(e, room, map[], d, RevokeMany(room, d, instance).0)
  {
    hide RevokeMany, Replies.ParseReply, AsAsked;
    RevokeManyMeaning(room, d, instance);
  }

  /** The other replies and what they run. */
  lemma ReplyRuns(room: Room, d: Desk, e: Event, post: Post)
    requires e.Reply?
    ensures var r, d' := Replies.ParseReply(e.text), HandleReply(room, d, e.sender, e.text, post);
            if e.sender != room.approver then d' == d
            else match r
                 case RevokeAll => d' == RevokeMany(room, d, None).0
                 case RevokeInstance(name) => d' == RevokeMany(room, d, Some(name)).0
                 case Undo(id) => d' == UndoReq(room, d, id, post).0
                 case Verdict(_, id, _, _) => Names(e, room.approver, d.store, id)
                 case _ => d' == d
  {
    hide RevokeMany, UndoReq, HandleVerdict, Replies.ParseReply;
  }

  /** One typed reply, from any sender. */
  lemma ReplyMoves(room: Room, d: Desk, sender: string, text: string, post: Post)
    requires DeskOk(room, d) && Monotone(room.clock)
    ensures Attributed(Reply(sender, text), room, map[], d, HandleReply(room, d, sender, text, post))
  {
    DeskStore(room, d);
    var e, reply := Reply(sender, text), Replies.ParseReply(text);
    ReplyRuns(room, d, e, post);
    StillAttributed(room, d, d, e, map[]);
    hide *;
    if sender == room.approver {
      match reply
      case RevokeAll => MassMoves(room, d, e, None);
      case RevokeInstance(name) => MassMoves(room, d, e, Some(name));
      case Undo(id) => UndoFiles(room, d, e, id, post);
      case Verdict(action, id, items, expiry) =>
        ReplyDecides(room, d, e, id, post);
        DecisionAttributed(e, room, d, HandleReply(room, d, sender, text, post), id);
      case _ =>
    }
  }

  /** One reaction, from any sender. */
  lemma ReactionMoves(room: Room, d: Desk, sender: string, event: string, emoji: string)
    requires DeskOk(room, d) && Monotone(room.clock)
    ensures Attributed(React(sender, event, emoji), room, map[], d, HandleReaction(room, d, sender, event, emoji))
  {
    DeskStore(room, d);
    var e := React(sender, event, emoji);
    hide DeskOk, StoreOk, ApproveReq, RejectReq, RevokeReq, AsAsked, Decided;
    if sender == room.approver && event in d.store.posted {
      var id := d.store.posted[event];
      if Names(e, room.approver, d.store, id) {
        ReactionDecides(room, d, e, id);
        DecisionAttributed(e, room, d, HandleReaction(room, d, sender, event, emoji), id);
      }
    }
  }

  lemma DecisionAttributed(e: Event, room: Room, d: Desk, d': Desk, id: nat)
    requires Decided(e, room, d, d', id) && Names(e, room.approver, d.store, id) && StoreOk(d.store, room.cfg)
    ensures Attributed(e, room, map[], d, d')
  {
    if id in d.store.rows {
      DecidedMoved(e, room, map[], d, d', id);
    }
    assert MovedOnly(d.store, d'.store, id);
    hide Decided, Moved, StoreOk, Names;
    MovedOneAttributed(e, room, map[], d, d', id);
  }

  lemma DeliverMoves(room: Room, d: Desk, id: nat, post: Post, inflight: map<nat, bool>)
    requires DeskOk(room, d) && Monotone(room.clock) && id in d.store.rows && id in inflight
    ensures Attributed(Answered(id, post), room, inflight, d, Deliver(room, d, id, post, inflight[id]))
  {
    hide DeskOk, Later, PostReq, RejectRow;
    PostBinds(d, id, post);
    RejectRowKeeps(room, d, id);
    RejectsPending(room, d, id);
  }

  lemma RejectsPending(room: Room, d: Desk, id: nat)
    ensures RejectRow(room, d, id).1 ==> id in d.store.rows && d.store.rows[id].state == Pending
  {
  }

  lemma RestartMoves(room: Room, d: Desk)
    requires DeskOk(room, d) && Monotone(room.clock)
    ensures Attributed(NewProcess, room, map[], d, Restart(d))
  {
    RestartKeeps(room, d);
  }

  lemma SweepMovesNothing(room: Room, d: Desk, sends: nat)
    ensures Sweep(room, d, sends).0.store == d.store
  {
    hide Announce, PendingFrom;
    var (recs, k) := PendingFrom(d.store, room.cfg, 1, room.clock, d.tick);
    AnnounceOnce(d.(tick := k), recs, sends);
  }

  lemma OperateMovesNothing(env: Env, w: World, instance: string, verb: Verb)
    ensures OperateStep(env, w, instance, verb).desk.store == w.desk.store
  {
    hide Run;
  }

  lemma AnyInflight(e: Event, room: Room, inflight: map<nat, bool>, d: Desk, d': Desk)
    requires Attributed(e, room, map[], d, d')
    ensures Attributed(e, room, inflight, d, d')
  {
    forall id | id in d.store.rows ensures id in d'.store.rows && Moved(e, room, inflight, d, d'.store, id) {
      assert Moved(e, room, map[], d, d'.store, id);
    }
  }

  /** The theorem, one direction: in any step of the broker, whoever causes it, each stored
      row stays as it is, or becomes active by the approver's yes to its number with just
      the items and the lifetime that yes asked for, or is settled by what Closes lists;
      and each new row is just what was filed. */
  lemma EveryMoveAttributed(env: Env, approver: string, w: World, e: Event)
    requires WorldOk(env, approver, w) && EnvOk(env)
    ensures Attributed(e, RoomOf(env, approver), w.inflight, w.desk, Next(env, approver, w, e).desk)
  {
    var room, d, d' := RoomOf(env, approver), w.desk, Next(env, approver, w, e).desk;
    hide DeskOk, PlaneOk, AskFor, Deliver, HandleReaction, HandleReply, Sweep, Restart, OperateStep, Attributed;
    match e
    case Ask(instance, reason, items) =>
      AskStore(room, d, instance, reason, items);
      AskAttributed(room, d, d', e, w.inflight);
    case Answered(id, post) =>
      if id in w.inflight {
        DeliverMoves(room, d, id, post, w.inflight);
      } else {
        StillAttributed(room, d, d', e, w.inflight);
      }
    case React(sender, event, emoji) =>
      ReactionMoves(room, d, sender, event, emoji);
      AnyInflight(e, room, w.inflight, d, d');
    case Reply(sender, text) =>
      ReplyMoves(room, d, sender, text, Unreachable);
      AnyInflight(e, room, w.inflight, d, d');
    case SweepNow(sends) =>
      SweepMovesNothing(room, d, sends);
      StillAttributed(room, d, d', e, w.inflight);
    case NewProcess =>
      RestartMoves(room, d);
      AnyInflight(e, room, w.inflight, d, d');
    case Operate(instance, verb) =>
      OperateMovesNothing(env, w, instance, verb);
      StillAttributed(room, d, d', e, w.inflight);
  }

  lemma StillAttributed(room: Room, d: Desk, d': Desk, e: Event, inflight: map<nat, bool>)
    requires d'.store == d.store
    ensures Attributed(e, room, inflight, d, d')
  {
  }

  lemma AskAttributed(room: Room, d: Desk, d': Desk, e: Event, inflight: map<nat, bool>)
    requires e.Ask? && d' == AskFor(room, d, e.instance, e.reason, e.items).0
    requires DeskOk(room, d) && Monotone(room.clock)
    ensures Attributed(e, room, inflight, d, d')
  {
    hide DeskOk, AskFor, CleanItems, Closes, Approves, AsAsked;
    AskStore(room, d, e.instance, e.reason, e.items);
  }

  // -------------------------------------------------- every message counts

  /** The theorem, the other direction: the approver's yes, no or revoke of a number does
      to it just what it says, exactly if the number stands so that it can, and a no or a
      revoke arms its undo. */
  lemma EveryDecisionCounts(env: Env, approver: string, w: World, e: Event, id: nat)
    requires WorldOk(env, approver, w) && EnvOk(env) && Names(e, approver, w.desk.store, id)
    ensures Decided(e, RoomOf(env, approver), w.desk, Next(env, approver, w, e).desk, id)
  {
    var room := RoomOf(env, approver);
    hide DeskOk, PlaneOk, HandleReaction, HandleReply, Decided;
    if e.React? {
      ReactionDecides(room, w.desk, e, id);
    } else {
      ReplyDecides(room, w.desk, e, id, Unreachable);
    }
  }

  lemma StandsNoMore(room: Room, row: Row, k: nat, k': nat)
    requires Monotone(room.clock) && k <= k' && StateAt(row, room.cfg, room.clock(k)) != Active
    ensures NeverActiveFrom(room, row, k')
  {
  }

  lemma SettledNeverActive(room: Room, row: Row, k: nat)
    requires Settled(row)
    ensures NeverActiveFrom(room, row, k)
  {
  }

  /** A withdrawal ends the grant for good: whatever stood before, the row is never
      effective-active again. */
  lemma WithdrawalEnds(env: Env, approver: string, w: World, e: Event, id: nat)
    requires WorldOk(env, approver, w) && EnvOk(env) && id in w.desk.store.rows
    requires Withdraws(e, approver, w.desk.store, id)
    ensures var d' := Next(env, approver, w, e).desk;
            id in d'.store.rows && NeverActiveFrom(RoomOf(env, approver), d'.store.rows[id], d'.tick)
  {
    var room, d, d' := RoomOf(env, approver), w.desk, Next(env, approver, w, e).desk;
    if Revokes(e, approver, d.store, id) {
      NextKeeps(env, approver, w, e);
      EveryDecisionCounts(env, approver, w, e, id);
      hide DeskOk, Next, PlaneOk, NeverActiveFrom;
      if StandsAt(room, d, id, Pending) || StandsAt(room, d, id, Active) {
        SettledNeverActive(room, d'.store.rows[id], d'.tick);
      } else {
        StandsNoMore(room, d.store.rows[id], d.tick, d'.tick);
      }
    } else {
      MassEnds(room, d, e, id);
    }
  }

  lemma MassEnds(room: Room, d: Desk, e: Event, id: nat)
    requires DeskOk(room, d) && Monotone(room.clock) && id in d.store.rows
    requires RevokesAllOn(e, room.approver, d.store.rows[id].instance)
    ensures var d' := HandleReply(room, d, e.sender, e.text, Unreachable);
            id in d'.store.rows && NeverActiveFrom(room, d'.store.rows[id], d'.tick)
  {
    DeskStore(room, d);
    hide DeskOk, StoreOk, RevokeMany, Replies.ParseReply, NeverActiveFrom;
    var name := d.store.rows[id].instance;
    RevokeManyMeaning(room, d, None);
    RevokeManyMeaning(room, d, Some(name));
    hide WasActive, RowRevoked;
  }

  /** An approval that goes through reads the clock past the reading that dates it. */
  lemma ApprovingReads(env: Env, approver: string, w: World, e: Event, id: nat)
    requires WorldOk(env, approver, w) && EnvOk(env) && Approves(e, approver, w.desk.store, id)
    requires id in w.desk.store.rows && w.desk.store.rows[id].state == Pending
    requires Next(env, approver, w, e).desk.store != w.desk.store
    ensures Next(env, approver, w, e).desk.tick == w.desk.tick + 3
  {
    var room := RoomOf(env, approver);
    if e.Reply? {
      VerdictRuns(room, w.desk, e, id, Unreachable);
    }
    hide HandleReply, ApproveReq, StateAt, WorldOk, Approves;
    ApproveReads(room, w.desk, id, NumbersOf(e), ExpiryOf(e));
  }

  lemma ApproveReads(room: Room, d: Desk, id: nat, numbers: Option<seq<nat>>, expiry: Option<string>)
    requires ApproveReq(room, d, id, numbers, expiry).store != d.store
    ensures ApproveReq(room, d, id, numbers, expiry).tick == d.tick + 3
  {
    var t0, t1 := room.clock(d.tick), room.clock(d.tick + 1);
    if Approve(d.store, room.cfg, id, expiry, numbers, t0, t1).1.Ok? {
      ApprovedReads(d.store, room.cfg, id, expiry, numbers, t0, t1);
    } else {
      RefusedApproval(d.store, room.cfg, id, expiry, numbers, t0, t1);
    }
    hide Approve;
  }
}
