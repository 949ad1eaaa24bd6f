# A model of the file access broker

The broker lets an agent touch files on Nextcloud servers only as far as a human
approver has allowed. This project models its decision-making core as one state machine
and proves what holds after every run of it.

| file | models |
|---|---|
| `Percent.dfy`, `Paths.dfy`, `Access.dfy` | the wall: percent-decoding (with UTF-8 replacement), normalization, containment, the decision |
| `Regex.dfy`, `Replies.dfy`, `ReplyForms.dfy` | the approver's reply grammar, matched by a small backtracking matcher, expiry strings, and which texts are which commands |
| `Grants.dfy`, `Lifecycle.dfy`, `Eager.dfy` | the grant store, what its runs keep, and its read-time expiry against a timer |
| `Audit.dfy` | the hash-chained log: writer, recovery, checkpoint, verifier |
| `Dav.dfy` | a server that honours exclusive write locks (RFC 4918, sections 6, 7, 9.10, 9.11 and 10.4) and the adapter's calls to it |
| `Namespace.dfy`, `Layer.dfy` | the namespace guard, authorization, write-before-operate, every verb, checkout and checkin |
| `LayerSafety.dfy`, `Warrants.dfy`, `Effects.dfy`, `Refusals.dfy` | what every verb keeps, which grant backs every request, what a success does to the files, and what is refused and logged |
| `Bot.dfy`, `BotSafety.dfy` | the approval bot and the two-phase request, and what their runs keep |
| `Broker.dfy`, `Attribution.dfy` | the whole broker over arbitrary event sequences, and what each message does |
| `Provenance.dfy`, `UndoRuns.dfy` | whole runs in terms of their events: where every request comes from, and undo |
| `Scrub.dfy` | the replacement loops that redact secrets |
| `Texts.dfy`, `Clocks.dfy`, `Wrappers.dfy` | strings, the clock, result types |

Each object the program updates in place (`GrantStore`, `ApprovalBot`, `Server`,
`NextcloudLayer`, `AuditLog`, `LogFile`, `DavServer`, `SecretScrubFilter`, `Clock`) is a class, and
each loop a method; their postconditions equate the new state with a function of the old
one, and the theorems are about those functions.

## How the environment enters

- The clock is a sequence of readings that never goes back; every read the code makes is
  one reading, so time may pass inside an operation. Readings that only feed message text
  are left out: what remains of such a clock is again one.
- SHA-256 of the chained payload is an arbitrary function of the chained fields. Only
  `EditRejected` assumes that it is injective; `SpliceRejected` assumes instead that the
  genuine records have distinct hashes.
- Every write to the log, every request to a server and every message to the room
  succeeds or fails as the run's oracles say. A failed append writes nothing; a failed
  checkpoint leaves the old one, an unreadable one, or the new one. A request may be lost,
  served, or served with its answer lost, and other clients of the server may do
  anything their own lock tokens allow between two requests of the broker. A server that
  refuses for reasons of its own is one that the request did not reach.
- Events are atomic except where the program waits while holding something unfinished: a
  request whose message is on its way is two events, and any others may come between.
- A lock token carries who obtained it; other clients do not present the broker's tokens.
  The empty token is nobody's.

## Where the code and its own words differ

The model follows the code.

- `broker/paths.py:85-89` says that a path still encoded after the last decoding pass
  matches no grant. The wall normalizes what it is given, so such a path is decoded further
  there and can match one: `Warrants.WallDecodesFurther` shows inputs that a grant on "a"
  authorizes while the transport gets "%61" or a deeper encoding of it, and
  `Paths.NormalizeAgain` says exactly when the two paths are the same.
- `broker/paths.py:56-58` says a grant without expiry is checked on its other conditions;
  the check at `broker/paths.py:184` refuses it.
- `broker/nextcloud.py:406-423` announces a verification between the write and the unlock;
  there is none.
- `broker/matrixbot.py:333-338` says undo re-files the original items. Their paths are
  normalized once more: `BotSafety.UndoCreates` says exactly when they are the same.
- `broker/matrixbot.py:69-71` lets instance names be lower-case letters, digits, hyphens and
  underscores. The first reply pattern takes no word that starts with a digit for a target, so such an
  instance cannot be revoked by name, nor one whose name has an upper-case letter
  (`ReplyForms.RevocableNames`).
- Reopening the store relabels a request that had already timed out from expired to
  rejected; only the class of dead states is absorbing.
- A request whose message is posted under an event id that is already taken is not
  rolled back (`broker/server.py:150-156`): it stays pending (`Attribution.FilingMeaning`).
- `broker/logging_setup.py:24-28` promises that a secret is stripped wherever it appears.
  That holds in every configuration exactly for the secrets that no overlap with the mark
  "[redacted]" agrees with (`Scrub.SafeExactlyWhen`), for a secret alone exactly if it
  cannot survive its own replacement (`Scrub.ScrubsOneExactly`), and among bracket-free
  secrets exactly if none is part of the mark's word (`Scrub.BracketFreeExactly`).

## Model

| member | source | states |
|---|---|---|
| Provenance.EveryCallEntitled | broker/nextcloud.py:167-197 | End-to-end safety over the events of the run: every request to a server belongs to a file operation, goes to a configured instance, and is a discovery listing or touches only addresses that start with the instance and whose other components, joined by "/", are a path under an item that an earlier event filed and the approver's own later yes to that number granted, as a write item if the request changes anything; a clock reading of the operation lies after the reading that dates that yes and before the lifetime it named is over; and no revoke of the number and no mass revocation came between. Between escape-free paths the item's components are a prefix of the address's |
| Provenance.LiveIsEntitled | broker/grants.py:240-279 | A row that is live before an event was filed by an earlier event and granted by the approver's yes, and nothing withdrew it since |
| Provenance.NotWithdrawn | broker/grants.py:295-322 | A row that can be seen active was not withdrawn by any event of the run so far |
| Broker.RunsOk | broker/server.py:88-126 | The joint invariant of store, bot, log, locks and requests holds after every sequence of events |
| Broker.NextKeeps | broker/server.py:139-207 | Every event, whoever causes it, keeps the invariant, evolves rows only forwards and only adds facts and requests |
| Broker.EveryCallWrittenFirst | broker/audit.py:189-218 | Write-before-operate over runs: the requests made are, in order, what the allowed log entries announce whose checkpoint write succeeded: the logged operation and instance determine the kind of request and its flags, and the address is the instance followed by components that spell the logged path. At each request the log verifies with that entry last |
| Broker.NoLostUpdate | broker/nextcloud.py:378-423 | With arbitrary other clients in between: after a lock, until a put with its token, the lock is held and what was read is the content; until an unlock of the path or below it arrives with the token, the lock is held |
| UndoRuns.UndoNeverOutnumbers | broker/matrixbot.py:333-371 | At every moment of every run, the requests that undo replies created are no more than the numbers the approver rejected or revoked one at a time |
| UndoRuns.UndoInTime | broker/matrixbot.py:333-371 | Every undo that creates a request follows the approver's own reject or revoke of that number, within 15 seconds of that event's last reading, with no restart and no other undo of it between |
| UndoRuns.CountsOverRun | broker/matrixbot.py:362-371 | Windows are opened by single decisions that settle a row and by nothing else |
| Broker.RunsMoveForward | broker/grants.py:127-322 | From any moment of a run to any later one |
| Broker.RequestIsTwoEvents | broker/server.py:139-157 | The request as one uninterrupted sequence is filing followed by the answer from the room, the two events a run may separate |
| Broker.UndoIsTwoEvents | broker/matrixbot.py:352-360 | The same for an undo, whose failed message is not rolled back |
| Provenance.FineIsEntitled | broker/nextcloud.py:179-197 | What a verb's request is backed by in the store is entitled by the events before it |
| Attribution.EveryMoveAttributed | broker/matrixbot.py:246-329 | In any step a stored row only becomes active by the approver's yes to its number, with exactly the items and lifetime that yes named, and is only settled by the approver's no or revoke of it, a mass revocation that includes it while active, a restart while pending, or the rollback of an agent's request whose message never arrived; a new row is what an agent's request or an undo of the approver filed |
| Attribution.EveryDecisionCounts | broker/matrixbot.py:246-329 | The converse: the approver's yes, no or revoke of a number, by reaction or reply, takes effect exactly when the number stands so that it can, does to it just what it says, arms the undo of a no or revoke, and touches no other row |
| Attribution.WithdrawalEnds | broker/matrixbot.py:435-498 | After a revoke of its number or a mass revocation it falls under, a row is never effective-active again |
| Attribution.ReplyMoves | broker/matrixbot.py:277-329 | What one typed reply, from any sender, may move and file |
| Attribution.ReplyDecides | broker/matrixbot.py:321-329 | What a typed verdict of the approver does |
| Attribution.ReactionMoves | broker/matrixbot.py:246-275 | What one reaction, from any sender, may move |
| Attribution.ReactionDecides | broker/matrixbot.py:264-275 | What a reaction of the approver on a request's message does |
| Attribution.FilingMeaning | broker/server.py:139-157 | What each answer to a request implies: filed means pending and bound to its message, rolled back means it can never be approved, a taken event leaves it pending and unbound, invalid changes nothing |
| Attribution.ChoiceNotEmpty | broker/matrixbot.py:106-116 | The parser never hands over an empty list of item numbers |
| BotSafety.RevokeManyMeaning | broker/matrixbot.py:435-476 | After a mass revocation nothing on the instance is effective-active ever again, other rows are untouched, and the reported ids are, ascending, exactly the rows that moved from active to revoked, also when grants expire during the loop |
| BotSafety.UndoSucceeds | broker/matrixbot.py:333-360 | Undo succeeds exactly when a window is armed and open and every path still normalizes; the window is consumed either way and a refusal changes no row |
| BotSafety.UndoCreates | broker/matrixbot.py:352-360 | A successful undo creates one pending request with the next, larger number and the decided record's instance and reason; the items are the same exactly if no path has an escape left |
| BotSafety.RawClean | broker/grants.py:205-214 | When stored items are accepted again, and when they come back the same |
| BotSafety.RejectReqKeeps | broker/matrixbot.py:398-405 | A reject settles its row exactly if the number is open, and then arms its undo, for the first time, for 15 seconds and for what the row asked; otherwise it changes nothing |
| BotSafety.RevokeReqKeeps | broker/matrixbot.py:478-498 | The same for a single revoke, of an open number or a live grant |
| BotSafety.UndoReqKeeps | broker/matrixbot.py:333-371 | Undo keeps the bot's invariant |
| BotSafety.RestartKeeps | broker/grants.py:169-183 | A restart closes all windows, forgets the notices, rejects every pending row and changes no other |
| BotSafety.SweepMeaning | broker/matrixbot.py:581-596 | The sweep notices only unanswered requests that have expired, each at most once per process, misses none unless the room fails, and changes nothing but that memory |
| BotSafety.HandleReplyKeeps | broker/matrixbot.py:277-329 | A reply keeps the invariant, and from another sender changes nothing |
| BotSafety.HandleReactionKeeps | broker/matrixbot.py:246-275 | A reaction keeps the invariant, and from another sender changes nothing |
| Bot.ApprovalBot.RevokeAllOf | broker/matrixbot.py:435-476 | The loop over the listed grants computes the mass revocation |
| Bot.ApprovalBot.Reopen | broker/matrixbot.py:333-360 | The bot object's undo |
| Bot.ApprovalBot.Close | broker/matrixbot.py:478-498 | The bot object's single reject and revoke with its undo window |
| Bot.ApprovalBot.OnReaction | broker/matrixbot.py:246-275 | The sender is checked before the event is looked up; the whole new state |
| Bot.ApprovalBot.OnReply | broker/matrixbot.py:277-329 | Dispatch of typed replies; the whole new state |
| Bot.ApprovalBot.SweepExpired | broker/matrixbot.py:581-596 | The sweep loop over timed-out requests |
| Bot.Server.AskAccess | broker/server.py:139-157 | Create, post, roll back when the room is unreachable |
| Warrants.JudgeExactly | broker/nextcloud.py:188-194 | The wall over the flattened items allows exactly when the mode is "read" or "write" and some item of some row on the instance is live at the wall's own reading, contains the path, and is a write item if a write is asked for |
| Warrants.RunKeeps | broker/nextcloud.py:274-423 | Every verb keeps the layer's invariant, and each request it makes is to a configured instance, outside the trash namespace, and backed by a grant on the path its address spells, at a reading within the verb |
| Warrants.AuthorizeKeeps | broker/nextcloud.py:167-197 | A successful authorization names a live row and item for the guarded path; a refusal contacts no server |
| Warrants.CheckoutReturnsLockedContent | broker/nextcloud.py:378-404 | What a checkout returns is the content of the file at the instance and path asked for, under a lock that is held |
| Warrants.FailedCheckinKeepsLock | broker/nextcloud.py:406-423 | Wherever a checkin fails, at the wall, at a log entry, or at a put refused, lost or unanswered, the lock stays held; it can only be gone if the put was confirmed and an unlock of the locked path or below it arrived |
| Warrants.RunCheckinKeeps | broker/nextcloud.py:406-423 | The unlock is sent only after the put was confirmed |
| Warrants.ReadUnderLock | broker/nextcloud.py:389-404 | A read after the lock shows what is still there while no put with the token follows |
| Warrants.AuthorizedPathIsTransportPath | broker/nextcloud.py:148-165 | Despite the double normalization the path the wall authorized is the path handed to the transport, exactly if it has no escape left |
| Warrants.WallDecodesFurther | broker/paths.py:85-89 | Beyond the cap they part: inputs handed to the transport still encoded, which a grant on another path authorizes |
| Warrants.CoversIsPrefix | broker/paths.py:127-134 | Between escape-free normal forms the item's component list is a prefix of the request's |
| Effects.SingleEffect | broker/nextcloud.py:316-374 | A successful read returned the content, write stored the bytes, trash removed the tree, mkdir made a folder where nothing was, at the address that spells the instance and the normalized path, and nothing outside it was touched |
| Effects.MoveEffect | broker/nextcloud.py:336-350 | A successful move relocated the whole tree between the addresses that spell its two paths, over nothing that was there, and touched nothing else |
| Effects.CheckinEffect | broker/nextcloud.py:406-423 | A successful checkin under a held lock leaves exactly its bytes and releases the lock, whatever other clients try between put and unlock |
| Effects.DeniedTouchesNothing | broker/nextcloud.py:167-197 | A denied verb has contacted no server |
| Refusals.DeniedExactly | broker/nextcloud.py:167-197 | A verb is denied exactly if the instance is not configured, the path is in the trash namespace, or no live item covers it: of either mode for a read, a write item for everything else, at both ends for a move; a listing also passes where discovery is enabled |
| Refusals.DeniedIsLogged | broker/nextcloud.py:199-220 | A denied verb other than a listing appends one line that says "refused", the instance, the path, the mode and why, unless the write fails or a field holds a secret; a denied listing changes nothing |
| LayerSafety.AuditAndKeeps | broker/nextcloud.py:223-255 | One logged step: at most this one request, only after its entry and checkpoint |
| LayerSafety.LoggedKeeps | broker/audit.py:148-218 | One log entry, whatever becomes of its writes: which lines the file then holds, and that it verifies when the entry was confirmed |
| LayerSafety.TransportKeeps | broker/webdav_adapter.py:190-378 | One request keeps every broker lock and every read under it valid |
| Layer.NextcloudLayer.Authorized | broker/nextcloud.py:167-197 | Instance, namespace and wall, in that order, with refusals logged |
| Layer.OneAddress | broker/nextcloud.py:316-374 | For each canonical path exactly one address is the instance followed by components that spell the path, and it is the one requests go to |
| Layer.NextcloudLayer.AuditThen | broker/nextcloud.py:223-255 | Write-before-operate in the layer object |
| Layer.NextcloudLayer.List | broker/nextcloud.py:274-314 | Discovery or granted listing; refusals here leave no log line |
| Layer.NextcloudLayer.Single | broker/nextcloud.py:316-374 | read, write, trash and mkdir |
| Layer.NextcloudLayer.MoveTo | broker/nextcloud.py:336-350 | Both ends are authorized, the source first |
| Layer.NextcloudLayer.CheckOut | broker/nextcloud.py:378-404 | Lock, then read |
| Layer.NextcloudLayer.CheckIn | broker/nextcloud.py:406-423 | Put with the token, then unlock |
| Dav.LockedContentStable | broker/webdav_adapter.py:297-345 | On a server that honours exclusive locks, a request without the token changes neither the lock nor the locked content |
| Dav.OnlyUnlockReleases | broker/webdav_adapter.py:346-378 | Only an unlock with the token releases the lock |
| Dav.ContactStable | broker/webdav_adapter.py:190-222 | The same across one exchange of the broker with other clients acting around it and any delivery failure |
| Dav.WebDavAdapter.TakeLock | broker/webdav_adapter.py:297-345 | The adapter's lock |
| Dav.WebDavAdapter.Upload | broker/webdav_adapter.py:190-222 | The adapter's put, conditional on a token when one is given |
| Dav.WebDavAdapter.ReleaseLock | broker/webdav_adapter.py:346-378 | The adapter's unlock |
| Audit.VerifyChain | broker/audit.py:221-268 | The verifier's walk |
| Audit.VerifyMeaning | broker/audit.py:221-268 | Accepted exactly when every line links to its predecessor, every hash is its record's and the checkpoint, if present, names the last line and the count; a break is reported at its first occurrence |
| Audit.SpliceRejected | broker/audit.py:234-268 | Genuine lines dropped, repeated or reordered beside the genuine checkpoint are accepted exactly if they are the genuine log |
| Audit.EditRejected | broker/audit.py:47-80 | Replacing pairwise non-adjacent lines is accepted exactly if each replacement agrees on the chained fields and both hashes |
| Audit.AdjacentPairCanPass | broker/audit.py:78-80 | Why adjacency matters: prev is not part of a record's own hash |
| Audit.LogRuns | broker/audit.py:148-218 | In every run of records and reopenings memory equals file, the file has one line per written record, and it verifies exactly unless the checkpoint lags |
| Audit.LogOnlyGrows | broker/audit.py:189-203 | The file only grows by appending |
| Audit.BreakUntilNextRecord | broker/audit.py:203-218 | A lagging checkpoint is reported as a break until the next record whose checkpoint is written |
| Audit.RecordRepairs | broker/audit.py:189-218 | A confirmed record leaves a log that verifies with its line last |
| Audit.NoSecretLogged | broker/audit.py:133-171 | In no run does a configured secret occur in the instance, path, operation, decision or reason of a line written |
| Audit.ReopenKeeps | broker/audit.py:106-131 | Recovery from the file restores the writer's memory |
| Audit.AuditLog.OpenLog | broker/audit.py:84-131 | Opening refuses an unreadable tail |
| Audit.AuditLog.Write | broker/audit.py:148-218 | record: refuse secrets, append, remember, checkpoint |
| Eager.LazyRefinesEager | broker/grants.py:330-348 | In every run the read-time states equal those of a machine in which a timer rewrites rows, up to the restart relabelling |
| Eager.RunsAgree | broker/grants.py:330-378 | The two machines stay related over every run |
| Eager.ActiveAgrees | broker/grants.py:387-405 | active_grants observes the same in both |
| Eager.RestartRelabels | broker/grants.py:169-183 | A restart relabels exactly the pending rows that had timed out |
| Eager.RelabellingRun | broker/grants.py:169-183 | A run of one request and a restart, in which it happens exactly if the restart came after the timeout |
| Lifecycle.RunsEvolve | broker/grants.py:187-322 | Over every run with restarts: ids grow and are never reused, dead rows stay dead, settled rows never change, items change once and only to requested ones, an expiry once written stays |
| Lifecycle.AfterOk | broker/grants.py:187-322 | The store's invariant over every run, with lifetimes the default or between 60 and 86,313,600 seconds |
| Lifecycle.ActiveGrantsMeaning | broker/grants.py:387-405 | active_grants lists, in id order without repeats, only rows one of its own readings showed active, and all that are still active after the last |
| Lifecycle.ApprovalMeaning | broker/grants.py:240-279 | approve succeeds exactly when the number is open, the expiry well-formed and every item number in range; the grant then holds just the chosen items for just the lifetime asked for, so many times an hour, a minute or a day, and an empty choice rejects |
| Lifecycle.DeadNumbersRefuse | broker/grants.py:224-238 | A number once expired or decided against is refused by approve, reject and revoke for ever |
| Lifecycle.ApproveKeeps | broker/grants.py:240-279 | approve keeps the invariant and evolves rows forwards |
| Lifecycle.RejectKeeps | broker/grants.py:281-293 | reject does |
| Lifecycle.RevokeKeeps | broker/grants.py:295-322 | revoke does |
| Lifecycle.CreateKeeps | broker/grants.py:187-222 | create_request adds one pending row under the next id, or changes nothing |
| Lifecycle.DiscardKeeps | broker/grants.py:169-183 | The restart rule leaves no pending row |
| Lifecycle.CleanItemsShape | broker/grants.py:205-214 | Accepted items are the requested ones in order, each path normalized |
| Lifecycle.ChooseMembers | broker/grants.py:258-263 | A partial approval keeps exactly the numbered items |
| Grants.GrantStore.CreateRequest | broker/grants.py:187-222 | The store object's create_request |
| Grants.GrantStore.ApproveRequest | broker/grants.py:240-279 | The store object's approve, with its clock readings |
| Grants.GrantStore.RejectRequest | broker/grants.py:281-293 | The store object's reject |
| Grants.GrantStore.RevokeGrant | broker/grants.py:295-322 | The store object's revoke |
| Grants.GrantStore.ListActive | broker/grants.py:387-405 | The store object's active_grants loop |
| Grants.GrantStore.PendingRecords | broker/grants.py:433-437 | The store object's pending_records loop |
| Grants.GrantStore.Post | broker/grants.py:441-457 | A taken event id is refused |
| Access.CheckAccess | broker/paths.py:137-201 | The scan over the grants |
| Access.AllowedMeaning | broker/paths.py:167-201 | Allowed exactly when some single grant is live, in scope and sufficient; the first such is named |
| Access.ModesExactly | broker/paths.py:167-201 | A write is allowed exactly under a live write item whose components are a prefix of the path's, a read exactly under a live item of either mode, any other mode never |
| Access.RefusedMeaning | broker/paths.py:167-201 | A refusal names the first covering grant and its shortfall, or says that none covers |
| Access.VerdictIgnoresOrder | broker/paths.py:167-201 | The verdict does not depend on order |
| Access.VerdictGrowsWithGrants | broker/paths.py:167-201 | It grows with grants and shrinks with time |
| Access.VerdictIgnoresDeadGrants | broker/paths.py:167-201 | Dead and malformed grants never matter |
| Paths.NormalizePath | broker/paths.py:92-124 | The push and pop loop |
| Paths.NormalizeRefuses | broker/paths.py:99-122 | What is refused, in full: only white space, more than 2048 characters, a control character, or a climb above the root |
| Paths.NormalizeWritten | broker/paths.py:92-124 | A path without control characters, in which any characters are written as escapes of their UTF-8 bytes, with hex digits of either case, normalizes like the path itself, within the length limit and the decoding cap |
| Paths.NormalizedShape | broker/paths.py:92-124 | A result has no backslash and no empty, "." or ".." component, and no escape when the input decodes fully |
| Paths.NormalizeAgain | broker/paths.py:92-124 | Normalizing a result again gives the same path exactly if it has no escape left, is not blank and has no control character |
| Paths.NormalizeShrinks | broker/paths.py:92-124 | Normalizing never lengthens a path |
| Paths.CapLeavesEscape | broker/paths.py:80-89 | Beyond the cap a second run changes the result: a family of inputs |
| Paths.NestedOpens | broker/paths.py:68-89 | Within the cap the same family decodes to the end |
| Paths.RefusedIffOverdrawn | broker/paths.py:113-122 | The stack loop refuses exactly when some prefix has more ".." than names |
| Paths.ResolveIsSurvivors | broker/paths.py:113-124 | Otherwise it equals a specification by matching each ".." with the name it removes |
| Paths.ResolveConcat | broker/paths.py:113-124 | Resolving a concatenation is resolving the second part from the first's stack |
| Paths.ResolveInTwoParts | broker/paths.py:113-124 | and equals resolving the resolved first part followed by the second |
| Paths.InsideIsPrefix | broker/paths.py:127-134 | On canonical paths the string test is component prefixing |
| Paths.InsideIsPartialOrder | broker/paths.py:127-134 | Containment is a partial order |
| Percent.PercentDecode | broker/paths.py:68-89 | The capped loop is the fourth iterate of one decoding pass |
| Percent.UnquoteWritten | broker/paths.py:68-89 | Against an independent encoder (RFC 3629): a text with any of its characters written as escapes decodes to the text |
| Percent.DecodeEncoded | broker/paths.py:68-89 | The UTF-8 bytes of each character decode to it, whatever follows |
| Percent.UnquoteFixpoint | broker/paths.py:68-89 | A pass changes a text exactly if it holds an escape |
| Namespace.ForbiddenIsComponentwise | broker/nextcloud.py:155-165 | The trash refusal is a test on leading components, each letter in either case, stated on the characters |
| Namespace.GuardedShape | broker/nextcloud.py:133-165 | What the guard lets through is canonical and outside the trash namespace |
| ReplyForms.ReplyExactly | broker/matrixbot.py:74-116 | For every text and every command: the text is taken for that command exactly if, without the white space around it, it is laid out as one: the verb in letters of either case, white space, the number or the name, then the item list and the expiry, with the parts returned being those of the text; a list with an empty part raises. Every other text, "hello" among them, is no command |
| ReplyForms.RevocableNames | broker/matrixbot.py:65-104 | Some text revokes an instance by name exactly if the name is lower-case, starts with a letter and is not "all" |
| ReplyForms.VerdictRoundTrip | broker/matrixbot.py:55-116 | Every printed approve, reject or revoke with items and expiry parses back to its parts |
| ReplyForms.UndoRoundTrip | broker/matrixbot.py:74-105 | Every printed undo parses back |
| ReplyForms.StatusRoundTrip | broker/matrixbot.py:74-92 | status parses |
| ReplyForms.RevokeTargetRoundTrip | broker/matrixbot.py:66-104 | revoke all and revoke by instance name parse back |
| ReplyForms.ItemsCrashIffGap | broker/matrixbot.py:109-113 | An item list raises exactly if it has an empty part |
| Replies.ParseExpiryExactly | broker/grants.py:69-83 | Accepted exactly are one to three digits, not all zero, and a lower-case unit; the value is that many times 3600, 60 or 86400 seconds for h, m and d |
| Scrub.NoSecretLeft | broker/logging_setup.py:61-64 | For every text and every list: no secret that does not touch the mark occurs in the result, brackets or not |
| Scrub.SafeExactlyWhen | broker/logging_setup.py:61-64 | A secret is removed from every text beside any other secrets exactly if it does not touch the mark |
| Scrub.ScrubsOneExactly | broker/logging_setup.py:61-64 | A secret configured alone is removed from every text exactly if it cannot survive its own replacement |
| Scrub.ScrubsExactlyWhen | broker/logging_setup.py:61-64 | A whole list in which each secret that touches the mark does so from within, or survives with no other secret in its way, is scrubbed on every text exactly if none touches the mark |
| Scrub.BetrayedStays | broker/logging_setup.py:61-64 | A secret within the mark, or one that survives unhindered, is betrayed by some text, whatever the rest of the list |
| Scrub.ExposedStays | broker/logging_setup.py:61-64 | The text that betrays a secret that survives with no other secret in its way |
| Scrub.BracketFreeExactly | broker/logging_setup.py:61-64 | A list of bracket-free secrets is scrubbed on every text exactly if none is part of "redacted" |
| Scrub.CleanTextUnchanged | broker/logging_setup.py:61-64 | Text without secrets is unchanged |
| Scrub.BracketedSecrets | broker/logging_setup.py:61-64 | "]x" survives its own replacement; "[[" touches the mark, never survives alone, and is safe only alone |
| Scrub.SecretScrubFilter.Clean | broker/logging_setup.py:56-64 | The filter's loop |
| Scrub.ScrubbedNonEmpty | broker/logging_setup.py:52-54 | Dropping empty values beforehand changes no result |
| Scrub.Envelope | broker/server.py:198-205 | The envelope's loop and cut leave no secret that does not touch the mark |

## Left out

- HTTP, tool registration, bearer tokens, path dispatch, configuration, the transfer command line: plumbing without a deep invariant.
- Matrix sync and message rendering, status text, help and suggestions: only whether a message arrives enters the model; the status command changes nothing.
- Messages that announce outcomes: their failure leaves the state the decision made, so they do not appear.
- SQLite, fsync, file modes and the JSON text of records: rows, records and lines are values. A process that stops between two writes of one operation is not modelled.
- Waiting between the notices of one sweep: a sweep is one event.
- Torn log appends: a failed append writes nothing.
- `AuditLog` absent (the audit-less mode of tests).
- Lower-casing and `\d` are ASCII; names outside ASCII that lower-case to ASCII letters are not modelled. Lone surrogates do not occur.
- The overflow of timestamps far in the future.
- The quoting of an instance name in the "unknown instance" log line is plain quotes.
- Of the server, listing contents, missing parents, timeouts and owner override of locks; an instance is the first component of an address on one server.
- Mapping of transport errors to statuses, and the wording of error messages; a refused request is one outcome.
- The check_access tools of server and layer: read-only wrappers of the wall.
- The traceback branch of the logging filter: the same loop on another text.
- Lists of several secrets in which some touch the mark but none is betrayed (`Scrub.Betrayed`): whether they fail is decided only for one secret alone (`Scrub.ScrubsOneExactly`).
- Paths.NormalizedShape: for inputs not decoded within the cap it does not exclude escapes, because the code leaves them.
