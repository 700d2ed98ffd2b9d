# A verified model of the NPLN practice server

The repository is a Go server for one game's online services. This project
models, in Dafny, the parts of it that keep shared state, and proves what they
promise:

* **The Gamesync document store**: transactional write batches over the documents
  of a game session, document owners, cleanup deferments, reference-counted
  streams with reconnect timers, and push subscriptions that must stay equal to
  the committed store.
* **The field algebra** under the store: a quoted-path parser, a lens over nested
  maps, field masks, and int64-bounded transforms.
* **Matchmaking and the session registry**: public pools and friend pools, whose
  two member lists and participant counter are updated by tickets, joins and
  departures.
* **Listings**: the paginated listings of documents, game sessions and members.
* **The STUN Binding responder** (RFC 8489): the attribute walk over a datagram
  and the response built from it.

## How it is laid out

Every component has a *value* side and, where the Go code updates state in place,
an *object* side.

* Values: `FieldPath`, `FieldTree`, `Transforms`, `Documents`, `Batch`, `Store`,
  `Push`, `Lifecycle`, `Rooms`, `Registry`, `Paging` define what one step does and
  prove what each step keeps. `Guards`, `Counters`, `Commits` draw conclusions
  about batches.
* Meanings: `Rules`, `Effects`, `Admissions`, `Pools` and `Listings` say what the
  steps decide and leave in terms of documents, members and requests alone: which
  writes each family accepts, what an operation leaves at every path, who is let
  into a session and what it then says, what a listing shows.
* Runs: `Machine` puts the store, the subscribers and the stream lifecycle into
  one concurrent state machine, one action per critical section, with the
  publication lock held from a commit until its changes are published and every
  other action free to fall in between. `Runs` proves what every run keeps, and
  `Views` what a subscribed client sees. `RegistryRuns` does the same for
  matchmaking.
* Objects: `Writes`, `Subscribers`, `GamesyncServer`, `Matchmaking`, `Departures`,
  `Reads`, `Members` and `Stun` hold the classes, loops and in-place updates of the
  Go code. Each method states its whole effect as the value-side step it performs,
  and `Valid()` is the invariant proved for that step.

`dafny verify dfyconfig.toml` checks everything.

### Assumptions, and where they come from

* User-session ids are never reused after their session has left the store
  (`Machine.MayRemember`): a token that is still valid does not bring an expired
  member back. `WriteDocuments` reads the session before it takes the commit lock
  and rechecks only its presence afterwards.
* The member check of `IssueToken` and its remembering of the session are one step
  relative to expiry, and a reissued token carries the data its session already
  has (`Store.Reissues`). The code relies on the latter: it rewrites
  `docs/__us/<id>` without publishing it. `Push.SilentWrite` says exactly when
  such silence is harmless, and `Store.ReissueRewritesEqual` that it is here.
* Nothing is assumed of the wall clock, which may repeat a time or step back. Only
  the results on optimistic concurrency ask for runs whose commit times increase
  (`Runs.TimedRun`).
* The join counter of a game session does not wrap around: a join that would take
  it past the largest int64 is not part of a run (`Store.Countable`).
  `Store.RememberKeeps` says that it is exactly such a join that breaks the
  invariant.
* Tickets and joins carry one user definition, as `validateCallerDefinitions`
  enforces; caller ids are non-empty and contain no slash; session ids made by the
  server are unused, and contain neither a slash nor a NUL.
* A stream whose send has failed gets nothing more: the Go handler returns its
  error and the subscriber is removed.
* Protobuf strings are valid UTF-8, so Go's byte order on strings is the order of
  code points used here.

### Where a property holds only under a condition

* A mask copies every one of its paths exactly when it is *faithful*
  (`FieldTree.MaskAgreesIffFaithful`). Prefix-free masks are; the mask `a`, `a.b`
  is not, because setting `a.b` to nothing still replaces a scalar `a` by an empty
  map (`FieldTree.DeletingBelowScalarReplacesIt`).
* A document meets the guard its batch has just used exactly when it is still
  there and the guard names the batch's own commit time
  (`Guards.GuardReuseExactly`, `Commits.CommitReusesGuardExactly`). A guard on a
  time no later than the last commit is therefore used by at most one commit
  (`Runs.PastGuardCommitsOnce`, `Runs.GuardCommitsOnce`); a guard on the commit
  time itself can be used by two (`Runs.GuardCommitsTwice`).
* Keys without dots and backticks may be joined unquoted, except that the
  single key `*` is refused (`FieldPath.PlainPathParses`).
* Those who share a pool asked for the same exactly when the first one's
  configuration and matching key do not hold the NUL that separates them in the
  pool's key (`Pools.PoolMeansDemandExactly`); `Pools.Impostor` finds another demand
  otherwise.
* A member listing shows every member exactly when no page ends between two members
  of one name (`Members.ListingIsCompleteExactly`), and it does so for every page
  size exactly when no two members share a name
  (`Members.EveryPageSizeIsCompleteExactly`). `Members.SharedNamesAreLost` is the
  smallest listing that loses one.
* A batch's numbers from the allocation counter increase when its transforms only
  ever load the counter, raise the loaded number and store it again
  (`Transforms.Disciplined`); other transforms may come between.

## Model

| member | source | states |
|---|---|---|
| FieldPath.ReadFieldPath | gamesync_store.go:122-154 | The loop over flags and a builder answers exactly what the scanner function does, errors included. |
| FieldPath.ParsedPathIsKeyPath | gamesync_store.go:122-154 | Every successful parse is a non-empty list of non-empty keys. |
| FieldPath.PrintedPathParses | gamesync_store.go:122-154 | Every such list, whatever characters its keys hold, has a quoted path that parses back to it. |
| FieldPath.ParserImage | gamesync_store.go:122-154 | A key list is denoted by some path if and only if it is non-empty with non-empty keys. |
| FieldPath.PlainPathParses | gamesync_store.go:122-154 | Plain keys joined by dots parse to themselves; the lone wildcard is the one exception. |
| FieldTree.ReadFieldLoop | gamesync_store.go:155-164 | The descending loop reads what the recursive lens reads. |
| FieldTree.ReadSetSame | gamesync_store.go:165-185 | Reading back a set path gives the set value, or absence after a delete. |
| FieldTree.ReadSetBelow | gamesync_store.go:165-185 | Reading below a set path reads inside the set value. |
| FieldTree.ReadSetApart | gamesync_store.go:165-185 | Any path incomparable with the set one is unchanged. |
| FieldTree.ReadSetAbove | gamesync_store.go:175-183 | A proper ancestor of a set path becomes or stays a map, even when deleting. |
| FieldTree.CopyMaskLoop | gamesync_store.go:186-200 | The mask loop copies the masked paths in order and stops at the first bad path. |
| FieldTree.MaskLeavesApart | gamesync_store.go:526-537 | A masked update leaves, and a masked read omits, every path incomparable with the mask. |
| FieldTree.FaithfulMaskAgrees | gamesync_store.go:526-537 | Under a faithful mask the result agrees with the source on each masked path. |
| FieldTree.PrefixFreeIsFaithful | gamesync_store.go:526-537 | A mask none of whose paths extends another is faithful. |
| FieldTree.MaskAgreesIffFaithful | gamesync_store.go:186-200 | The exact condition: a mask agrees with every source on all its paths if and only if it is faithful. |
| FieldTree.DeletingBelowScalarReplacesIt | gamesync_store.go:165-185 | The smallest unfaithful mask and what it loses. |
| Transforms.ApplyTransformsLoop | gamesync_store.go:551-567 | The loop over an operation's transforms yields their composition and all their answers, or the first error. |
| Transforms.IncrementIsExact | gamesync_store.go:401-413 | Increment is refused on or by something that is no number (a missing field is zero), fails with OutOfRange exactly when the true sum leaves int64, and otherwise writes and answers the true sum. |
| Transforms.ExtremesAreExact | gamesync_store.go:414-439 | Maximum and Minimum leave the larger and the smaller of field and operand, and refuse exactly the same inputs. |
| Transforms.TransformLeaves | gamesync_store.go:448-452 | A transform leaves what it answers at its own path and changes no path incomparable with it. |
| Transforms.GlobalTransformsAre | gamesync_store.go:378-400 | Loading answers the counter, or else the field, or else zero; storing makes the field the counter; clearing removes the counter and keeps the field; a missing field is refused, and any other global is unknown. |
| Transforms.ServerTimeIs | gamesync_store.go:440-447 | REQUEST_TIME leaves and answers the commit time; another server value or no transform is refused. |
| Transforms.DrawIsFetchAndAdd | gamesync_store.go:378-413 | Load, optional floor, increment and store answer a number above the counter's and leave the counter at it. |
| Transforms.AdvanceStep | gamesync_store.go:378-413 | Whatever is interleaved, a store to the counter made under the discipline is above what the counter held and nothing else changes it. |
| Transforms.DrawsAreDisciplined | gamesync_store.go:551-567 | A load, optional floor, increment and store is disciplined. |
| Transforms.NoGlobalUseKeepsGlobals | gamesync_store.go:378-400 | Transforms that name no global leave the globals alone. |
| Documents.NameOfPath | gamesync_store.go:112-118 | A name that parses is the join of its collection and id, neither with a slash. |
| Rules.PathOfName | gamesync_store.go:112-118 | docs/c/i is a document name exactly when c is not empty and i not empty, a dot or two. |
| Text.FormatIntReads | gamesync_store.go:252-253 | A formatted sequence reads back, digit by digit, as the number, without leading zeros. |
| Documents.ClientNamesApart | gamesync_store.go:244-354 | No name a client may write is the fixed data or a user document. |
| Documents.WrittenIsAttributed | gamesync_store.go:244-354 | A document that passes the write rules names its writer wherever its family demands it. |
| Documents.RivalWriteRefused | gamesync_store.go:251-294 | An unshared document owned by another member cannot be written or deleted. |
| Rules.PlayerRule | gamesync_store.go:252-258 | Exactly the writer's own number, without a foreign uid, may be written under docs/p and docs/e. |
| Rules.ConnectionRule | gamesync_store.go:259-265 | Exactly a name of sixteen lower-case hexadecimal digits that nobody else owns may be written under docs/c. |
| Rules.StateRule | gamesync_store.go:266-281 | Exactly the writer's own id, with its uid, sequence and connection, under docs/__pus. |
| Rules.BlocklistRule | gamesync_store.go:266-281 | Exactly the writer's own id, with its uid, under docs/__bl. |
| Rules.StationRule | gamesync_store.go:282-315 | Exactly a typed envelope in the writer's name to a live member of its game session, or the deletion of an own one, under docs/__stu. |
| Rules.GroupRule | gamesync_store.go:282-315 | The same to All under docs/__stg. |
| Rules.MonitoringRule | gamesync_store.go:316-349 | Exactly a non-empty report by the writer about live members of its game session under docs/__mt; it is never deleted. |
| Rules.OtherFamilies | gamesync_store.go:350-352 | Nothing under any other collection. |
| Rules.PreconditionDecides | gamesync_store.go:225-242 | An operation goes through only if its precondition on existence or update time holds, and fails with the right error otherwise. |
| Batch.OpsFail | gamesync_store.go:491-583 | A batch answers with its first failing operation's error. |
| Batch.OpsCompose | gamesync_store.go:492-583 | A list of operations is the composition of its halves, in effect, answers and failure. |
| Batch.AppliedOp | gamesync_store.go:510-582 | One successful operation changes one client document and its owner, with the commit time and the creation time it had. |
| Effects.MaskedUpdateIs | gamesync_store.go:522-539 | After a masked update every path incomparable with the mask reads as before, or is absent in a new document; under a faithful mask each masked path reads as supplied. |
| Effects.WholeUpdateIs | gamesync_store.go:526-529 | Without a mask, or under the lone wildcard, exactly the supplied fields are left. |
| Effects.MergeIs | gamesync_store.go:540-550 | After a merge a supplied key has its supplied value and every other key its old one. |
| Effects.TransformIs | gamesync_store.go:551-570 | Only transforms, and only of a stored participant state, reach the globals; each operation has the answer of its kind. |
| Effects.MissingInput | gamesync_store.go:523-557 | Updates and merges without fields, and transforms of a missing or other document, are refused. |
| Effects.AcceptedExactly | gamesync_store.go:492-570 | An operation is accepted exactly when its precondition holds, its input is complete, and its writer may leave what it comes to. |
| Batch.OpsKeepGame | gamesync_store.go:492-583 | A batch keeps owners, names and user documents of its game session consistent. |
| Batch.BatchSparesOthers | gamesync_store.go:249-319 | A batch leaves every unshared document of another session, and its owner, as they were. |
| Batch.BatchTouchesOnlyItsNames | gamesync_store.go:571-582 | Documents and owners change only under the names of the batch's operations. |
| Batch.MailboxDeletionNeedsOwnership | gamesync_store.go:278-319 | A shared mailbox is deleted only by its owner, the monitoring report never. |
| Guards.SpentGuardFails | gamesync_store.go:225-242 | A batch guarded by a time its document no longer has, and will not get, fails. |
| Guards.GuardIsSpent | gamesync_store.go:225-242 | A committed batch leaves unusable every guard of its own that names another time than its commit time. |
| Guards.GuardReuseExactly | gamesync_store.go:225-242 | After a batch that used it, a guard holds again if and only if the document is there and the guard names the batch's commit time. |
| Guards.GuardTimeWasStored | gamesync_store.go:234-237 | A guard that held names a time the stored document had, or the batch's own. |
| Guards.OwnTimeGuardsTwice | gamesync_store.go:234-237 | The exception: a batch may guard a document by its own commit time, and a later batch then passes the same guard. |
| Guards.CreatesAreSeparated | gamesync_store.go:230-233 | Two create-only operations on one name in a batch have a delete of it between them. |
| Guards.CreateFailsWhilePresent | gamesync_store.go:230-233 | A create-only operation on a document that is there fails its batch. |
| Counters.BatchRunsCounter | gamesync_store.go:475-478 | A disciplined batch answers strictly increasing numbers above the counter it found and leaves the counter at the last. |
| Store.InitFixedKeeps | gamesync_store.go:38-65 | Making the fixed data keeps the store's invariant, and succeeds whenever the seed is within policy. |
| Store.UserDocumentRecognized | gamesync.go:500-524 | The user document is recognized under the name the server gives it, so a join is always published. |
| Store.RememberKeeps | gamesync.go:205-241 | A join or a reissue keeps the invariant (unique sequences, user documents equal to the roster, live owners) if and only if the join counter does not wrap around. |
| Store.ReissueRewritesEqual | gamesync.go:214-241 | A reissued token rewrites the user document with an equal one. |
| Store.CommitMoves | gamesync_store.go:607-619 | A commit installs the batch's working copies in its game session and touches nothing of any other. |
| Effects.CommittedByLast | gamesync_store.go:571-583 | A commit stores what the last operation on each name left, and answers each operation in its place. |
| Effects.CommittedMask | gamesync_store.go:522-539 | Of a commit: the last operation on a name, when a masked update, keeps and copies exactly what its mask says. |
| Effects.CommittedWholeOrMerge | gamesync_store.go:526-550 | Of a commit: the same for a whole update and a merge. |
| Effects.CommitAnswers | gamesync_store.go:460-470 | Too many operations, and only they, exhaust a request; a departed session, and only it, is unauthenticated. |
| Effects.DefermentIs | gamesync_store.go:584-606 | A deferment is stored under its name exactly when it is the session's own and all its writes are deletes the session may do; withdrawing one removes it alone. |
| Store.CommitKeeps | gamesync_store.go:455-619 | A commit keeps the store's invariant. |
| Store.ExpiryIsExact | gamesync_store.go:692-707 | Whatever deferments are stored, expiry removes the user document and the owned documents and nothing else. |
| Store.ExpireKeeps | gamesync_store.go:679-715 | An expiry keeps the store's invariant. |
| Commits.CommitsCompose | gamesync_store.go:492-583 | Committing xs and then ys at one time is committing xs + ys: same store, answers appended, names united, same failures. |
| Commits.CommitReusesGuardExactly | gamesync_store.go:225-242 | The same of a commit: the committed document meets the guard again if and only if it is there and the guard names the commit time. |
| Commits.CommitIsIsolated | gamesync_store.go:571-619 | A commit changes no document, owner or global of another game session, no fixed or user document, no unshared document of another member, no deferment of another session, and neither sessions nor join counters. |
| Commits.ExpiryEffect | gamesync_store.go:692-715 | Name by name, what an expiry removes and what it leaves. |
| Commits.UsersAreRoster | gamesync.go:500-524 | docs/__us/id is there exactly for a live member of the game session, with exactly the keys uid, ussid, ucsid, st, tn, att and ltc, each with that member's value. |
| Commits.JoinedPresents | gamesync.go:205-241 | A join stores the session the binding describes, with the next number of its game session or the numbers it had, and its document presents it. |
| Commits.FixedDataSays | gamesync_store.go:56-63 | The fixed data describes its game session, key by key. |
| Commits.FixedDataOtherwise | gamesync_store.go:47-53 | A refused seed, or fixed data that is there, leaves every document. |
| Commits.OwnersCover | gamesync_store.go:571-580 | Owners cover exactly the documents other than user documents and fixed data; every owner is a live member the document is attributed to. |
| Push.ReplayInstalled | gamesync.go:77-103 | Installing a target starts its view at the committed matching documents and moves no other view. |
| Push.ReplayPublished | gamesync.go:117-152 | Publishing a change moves exactly the views of the targets it is sent for. |
| Views.PublishedMessages | gamesync.go:117-152 | A change is sent once per matching target, as UPDATED with the document or as DELETED with its name. |
| Views.InstalledMessages | gamesync.go:77-103 | An installation is sent as UPDATED, then one EXIST for each document in order, then LISTED. |
| Views.TargetsAreKeyed | gamesync.go:77-110 | A target is installed and dropped under the last segment of its name. |
| Rules.TargetAsks | gamesync.go:59-75 | A collection target asks for docs/c/i exactly when it names docs/c, a documents target for exactly its listed names. |
| Rules.CollectionAsks | gamesync.go:67-73 | Of any name: the collection is what stands before the last slash. |
| Push.SilentWrite | gamesync.go:248-252 | An unpublished write is harmless for a target exactly when the target does not ask for it or nothing changed. |
| Push.DeliverKeepsSub | gamesync.go:117-152 | Delivering one queued change keeps every view converging to the store. |
| Push.UpdateKeepsSub | gamesync.go:582-586 | Installing a target with the committed snapshot keeps every view converging. |
| Push.DropKeepsSub | gamesync.go:105-115 | Dropping a target keeps the others converging. |
| Push.ConvergedView | gamesync.go:582-586 | A view with nothing pending is the committed matching documents. |
| Push.ViewAfterIsCoherent | gamesync_store.go:630-638 | Publishing every changed name, in any order, carries a view over to the new documents. |
| Lifecycle.StartKeeps | gamesync_store.go:642-653 | Starting a stream keeps counts equal to the open streams and cancels the timer. |
| Lifecycle.EndKeeps | gamesync_store.go:654-662 | Ending a stream keeps the lifecycle invariant, the last one leaving a schedule call. |
| Lifecycle.ScheduleKeeps | gamesync_store.go:663-678 | Scheduling keeps it, whatever happened since the call was decided. |
| Lifecycle.FireKeeps | gamesync_store.go:679-715 | A timer that runs, early or late, keeps it. |
| Lifecycle.OpenStreamIsSafe | gamesync_store.go:679-686 | A session with an open stream has no current timer and no firing expires it. |
| Lifecycle.OpenStreamGuards | gamesync_store.go:683-686 | As long as counts are the open streams, an open stream alone keeps every firing from expiring its session. |
| Lifecycle.SupersededTimerIsInert | gamesync_store.go:683-686 | A superseded timer that fires late changes nothing. |
| Lifecycle.CurrentTimerExpires | gamesync_store.go:683-715 | The current timer of a live session always expires it. |
| Machine.StepKeeps | gamesync_store.go:455-729 | Every critical section and message, with commits at any times whatever, keeps the whole invariant of store, history, subscribers and lifecycle. |
| Runs.SubscriptionsAreCoherent | gamesync.go:77-152 | Subscription coherence over every run: with the publication lock free, replaying a live stream gives exactly the committed documents each target asks for. |
| Views.CollectionViewIs | gamesync.go:59-152 | With the publication lock free, a live stream's view of docs/d shows exactly the committed documents docs/d/i, each as committed. |
| Views.DocumentsViewIs | gamesync.go:59-152 | And its view of listed documents exactly those of them that are committed. |
| Views.RosterViewIs | gamesync.go:248-262 | And its view of docs/__us exactly the live members of its game session, presented as the store knows them. |
| Runs.FirstMember | gamesync.go:205-262 | A first member joins by a run of three actions from the empty server, with sequence 1 and its user document, so runs exist. |
| Runs.BindingsAreStable | gamesync_store.go:456-470 | While an id is live, what was read of its session earlier still holds. |
| Runs.SequencesAreUnique | gamesync.go:213-226 | Sequences are never reused in a game session, over joins and departures. |
| Runs.PlayerDocumentsHaveOneOwner | gamesync_store.go:252-258 | docs/p/n and docs/e/n belong to one session over the whole run. |
| Runs.FixedDataIsImmutable | gamesync_store.go:47-49 | Fixed data is there before the first member and never changes. |
| Runs.StreamKeepsSessionLive | gamesync_store.go:683-686 | A session is never expired while it has an open stream. |
| Runs.SessionsAreWatched | gamesync_store.go:642-690 | In every reachable state counts are the open streams, and a live session without stream or pending schedule has a current unfired timer that will expire it. |
| Runs.LateTimerIsInert | gamesync_store.go:683-686 | A timer that is no longer current changes neither store, nor subscribers, nor counts and timers. |
| Runs.GuardCommitsOnce | gamesync_store.go:234-237 | Of two committed batches guarded by one update time on one document, that time is the first one's own commit time, when commit times increase. |
| Runs.PastGuardCommitsOnce | gamesync_store.go:234-237 | A guard on a time no later than the last commit is used by at most one commit. |
| Runs.GuardCommitsTwice | gamesync_store.go:234-237 | The exception as a run from the empty server: a member's document is written under a guard on the commit's own time, and later again under the same guard. |
| Runs.CreationsAreSeparated | gamesync_store.go:230-233 | Of two committed create-only operations on one name in different batches, the first batch deletes it afterwards, or a batch or expiry between them does, or the second batch deletes it beforehand. |
| Runs.AllocationsIncrease | gamesync_store.go:559-565 | Over any run whose transforms use the allocation counter only to load, raise and store, the numbers stored in a game session strictly increase, across members and departures. |
| Writes.MergeLoop | gamesync_store.go:544-548 | Merging field by field, in any order, is overriding the fields. |
| Writes.EditLoop | gamesync_store.go:521-570 | The switch over operations computes the new fields, globals and answer, or the error. |
| Writes.ApplyOperation | gamesync_store.go:492-582 | One turn of the operations loop performs one operation. |
| Writes.ApplyOperations | gamesync_store.go:488-583 | The operations loop performs the batch and collects exactly the touched names. |
| Writes.ApplyDefermentsLoop | gamesync_store.go:584-606 | The deferment loop installs and deletes the session's own cleanup deletes, or the first error. |
| Writes.DeferredLoop | gamesync_store.go:693-700 | The deferment loops of expiry collect exactly the owned deletes whose precondition holds. |
| Writes.OwnedLoop | gamesync_store.go:703-707 | The owner loop of expiry collects exactly the owned documents. |
| Writes.CommittedSnapshot | gamesync_reads.go:94-109 | The snapshot of a target is its matching documents in order of their names. |
| Subscribers.Subscriber.InstallTarget | gamesync.go:77-103 | The messages of an installation, and what a failed send leaves. |
| Subscribers.Subscriber.DeleteTarget | gamesync.go:105-115 | The target goes and one message says so. |
| Subscribers.Subscriber.SendMatching | gamesync.go:117-152 | Every matching target is told once, in whatever order the map is walked. |
| Subscribers.Subscriber.Publish | gamesync.go:117-152 | A change moves every matching target's view by itself and no other view. |
| Subscribers.PublishNames | gamesync_store.go:625-638 | Every changed name is told to every subscriber; views follow the changes. |
| GamesyncServer.Server.constructor | gamesync.go:170-182 | A new server is empty and valid. |
| GamesyncServer.Server.InitializeFixedData | gamesync_store.go:38-65 | The store takes exactly the fixed-data step, refusing a bad seed, and no view moves. |
| GamesyncServer.Server.RememberSession | gamesync.go:205-262 | The store takes exactly the join step and every view follows, reissues without a message. |
| GamesyncServer.Server.IssueToken | gamesync.go:446-474 | Fixed data first, then the session, leaving a schedule call pending; a refused seed joins nobody. |
| GamesyncServer.Server.WriteDocuments | gamesync_store.go:455-640 | The store becomes exactly what the batch commits to and every view follows; a failed batch changes and sends nothing. |
| GamesyncServer.Server.ExpireSession | gamesync_store.go:679-720 | The session expires exactly when this timer is current, no stream is open and it is there; otherwise only the firing is recorded. |
| Departures.ExpireMember | gamesync_store.go:679-729 | A timer that expires a member takes it out of the store and out of the session registry; one that does not leaves both as they are. |
| GamesyncServer.Server.AddSubscriber | gamesync.go:184-194 | A new stream joins one game session and the server stays coherent. |
| GamesyncServer.Server.RemoveSubscriber | gamesync.go:196-203 | A stream leaves its game session and nothing else changes. |
| GamesyncServer.Server.UpdateTarget | gamesync.go:570-591 | Under the publication lock the target is installed with the snapshot and its view starts coherent. |
| GamesyncServer.Server.DropTarget | gamesync.go:593-598 | The target goes and the server stays coherent. |
| GamesyncServer.Server.StreamStarted | gamesync_store.go:642-653 | The count and the timer take exactly the lifecycle's step. |
| GamesyncServer.Server.StreamEnded | gamesync_store.go:654-658 | The count goes down; the last stream is reported exactly when no stream is open. |
| GamesyncServer.Server.ScheduleDisconnect | gamesync_store.go:663-678 | A new timer becomes current unless a stream is open. |
| Rooms.AddUserKeeps | matchmaking.go:265-314 | A newcomer keeps both member lists and the counter in step and never grows the maximum. |
| Rooms.WithoutKeeps | session_registry.go:106-136 | A departure removes exactly one user session's entries from both lists, keeps them in step, and leaves a tombstone as it is. |
| Rooms.OthersMirror | session_registry.go:114-130 | Compacting two mirroring lists leaves mirroring lists. |
| RegistryRuns.KeyDeterminesRoom | matchmaking.go:161-169 | Tickets of one pool name one friend room, even if matching keys hold the separator. |
| Pools.CleanPool | matchmaking.go:161-169 | Two tickets share a pool exactly when configuration, matching key and friend room are equal, if one of them keeps the separator out of the first two. |
| Pools.PoolMeansDemandExactly | matchmaking.go:161-169 | The exact condition: all who share a ticket's pool asked for the same if and only if neither its configuration nor its matching key holds the separator. |
| Pools.Impostor | matchmaking.go:161-169 | Otherwise another demand that shares the pool. |
| Pools.PoolMatesAskedTheSame | matchmaking.go:208-263 | Over any run, everybody whom a ticket brought to a session asked for the configuration, matching key and friend room of any of them that is clean, and the session records them. |
| Pools.BoundSessionRecords | matchmaking.go:211-217 | The session a clean ticket is bound to records its demand for the whole run. |
| RegistryRuns.FirstHoldingIs | matchmaking.go:251-255 | The first loop finds the first active session of the pool that has the caller, if any. |
| RegistryRuns.FirstVacantIs | matchmaking.go:256-261 | The second finds the first active session with a vacancy, if any. |
| RegistryRuns.FirstMember | matchmaking.go:208-240 | A new session with its first member is active, within capacity and tagged with its ticket's room. |
| Admissions.OpenedSessionIs | matchmaking.go:208-240 | A session opened for a ticket has the places of its configuration (12 or 4, or the configured limit), is open and without password, public unless it has a friend room, records the demand, and holds its user as described. |
| Admissions.TrackedIsPlaced | matchmaking.go:335-362 | A stored ticket is always answered when first tracked, with an active session that has its user from then on, entered as described unless there already. |
| Admissions.ConfigIs | matchmaking.go:66-71 | A ticket keeps the last segment of its configuration under the server's tenant. |
| RegistryRuns.TrackKeeps | matchmaking.go:335-362 | Completing a ticket keeps the registry's invariant and changes no session but by a newcomer. |
| RegistryRuns.CreateKeeps | matchmaking.go:492-609 | Completing a creation ticket keeps it. |
| RegistryRuns.CreatedRoomIs | matchmaking.go:572-600 | A created session has its one member, at most 64 places, and no pool. |
| Admissions.CreatedSessionIs | matchmaking.go:544-608 | A creation makes a session exactly for 1 to 64 places, asked for or those of its configuration, with the password and properties asked for, public unless it has a password or a friend configuration, holding its maker. |
| RegistryRuns.CreationIsSettled | matchmaking.go:508-515 | The completion of a creation ticket makes one session, and completing it again answers that session or none. |
| RegistryRuns.CreationsStaySettled | matchmaking.go:508-515 | Over any run a completed creation ticket keeps its session, and completing it then changes nothing and answers that session to its members only. |
| RegistryRuns.JoinIs | session_service.go:279-296 | A direct join adds only where there is a vacancy, and nobody to a friend pool's session. |
| Admissions.JoinDecides | session_service.go:261-299 | A direct join is decided in order by visibility, membership, password, and an open place; only then the caller enters, as described, and nothing else changes. |
| Admissions.JoinRefuses | session_service.go:266-272 | A malformed name, several definitions or another user's definition are refused before any session is looked at. |
| Admissions.SessionNames | session_service.go:106-114 | A session is addressed under its tenant or the current one by one segment. |
| Admissions.DefinitionIs | session_service.go:18-27 | One definition, of the caller or of nobody in particular, comes to name the caller and is otherwise kept. |
| RegistryRuns.DepartKeeps | session_registry.go:106-136 | A departure keeps the registry's invariant. |
| RegistryRuns.AuthorizeKeeps | session_service.go:39-62 | A granted ticket's room is a session of the registry, so its name is free of the key separator. |
| Admissions.GrantIs | session_service.go:31-62 | A ticket is granted exactly when a friend configuration names an active session the caller is in, or another configuration names none. |
| RegistryRuns.StepKeeps | matchmaking.go:115-422 | Every critical section keeps the registry's invariant and the history of every session. |
| RegistryRuns.FirstCaller | matchmaking.go:335-362 | A first caller is matched, so runs exist. |
| RegistryRuns.RegistryAgrees | matchmaking.go:265-314 | In every reachable state the count is the list's length within the maximum, uids are distinct, pooled lists mirror in order, and active means having members. |
| RegistryRuns.SessionsEvolve | session_registry.go:131-135 | Over any run a session's maximum, name, tag, pool, password and publicity never change, and a terminated session never changes again. |
| RegistryRuns.EntryStep | matchmaking.go:335-362 | Only the completion of an authorized ticket for its room places a member in a friend pool's session. |
| RegistryRuns.FriendMembersWereInTheRoom | session_service.go:39-62 | Every member of a friend pool's session was placed there by a ticket, has stayed since, and was a member of the ticket's base room, then active, when that ticket was authorized. |
| RegistryRuns.PoolsArePacked | matchmaking.go:242-263 | In a run without departures every session of a pool but the last is full. |
| RegistryRuns.BoundTicketIsSettled | matchmaking.go:351-361 | Tracking a bound ticket again changes nothing and answers no other session. |
| Admissions.BoundTicketAnswers | matchmaking.go:351-361 | A bound ticket answers its session exactly while that is active and has the caller. |
| RegistryRuns.RepeatedTicketTakesNoSlot | matchmaking.go:249-255 | A further ticket of somebody in the pool is bound to a session that has them and changes no session. |
| RegistryRuns.TicketsStayBound | matchmaking.go:351-361 | A ticket stays bound to one session for the whole run. |
| Matchmaking.GameSession.Visible | session_service.go:84-105 | The visibility loops decide exactly who may see a session. |
| Matchmaking.GameSession.HasUid | session_registry.go:85-92 | The search finds a uid exactly when a member has it. |
| Matchmaking.GameSession.Leave | session_registry.go:114-135 | Compacting the session's list, recounting and closing is the value-side departure. |
| Matchmaking.PoolSession.HasUid | matchmaking.go:185-192 | The search of the pool's list finds a uid exactly when a member has it. |
| Matchmaking.PoolSession.AddMembers | matchmaking.go:265-314 | Both lists, the counter and the maximum change as the value-side step says, through the shared session object. |
| Matchmaking.PoolSession.Leave | session_registry.go:122-130 | Compacting the pool's list keeps exactly the other members, in order. |
| Matchmaking.LeaveBoth | session_registry.go:106-136 | The two compactions together are one departure. |
| Matchmaking.Matchmaker.SelectSession | matchmaking.go:242-263 | The two loops find the session the value-side selection names, or none. |
| Matchmaking.Matchmaker.NewSession | matchmaking.go:208-240 | A new session enters the pool, the registry and the pool entries as one object. |
| Matchmaking.Matchmaker.AuthorizeTicket | session_service.go:18-62 | The caller's own definition and membership of the friend room decide, with the right error each. |
| Matchmaking.Matchmaker.StoreTicket | matchmaking.go:139-144 | A granted ticket is stored under its fresh name. |
| Matchmaking.Matchmaker.CancelTicket | matchmaking.go:407-422 | The ticket goes, its binding stays. |
| Matchmaking.Matchmaker.CompleteTicket | matchmaking.go:335-362 | Registry and answer are exactly the value-side completion's. |
| Matchmaking.Matchmaker.StoreCreation | matchmaking.go:472-474 | A creation ticket is stored while pending. |
| Matchmaking.Matchmaker.CompleteCreation | matchmaking.go:492-609 | Registry and answer are exactly the value-side creation's. |
| Matchmaking.Matchmaker.JoinGameSession | session_service.go:261-299 | The registry changes exactly as the value-side join, or not at all with its error. |
| Matchmaking.Matchmaker.DepartSession | session_registry.go:106-136 | The registry changes exactly as the value-side departure. |
| Paging.SortedAfter | gamesync_reads.go:70-76 | Dropping keys up to the token before sorting or after is the same. |
| Paging.NextIsLater | gamesync_reads.go:78-82 | Each token leaves exactly the keys behind its page, so the tokens end. |
| Paging.PagesAreComplete | gamesync_reads.go:61-89 | From the empty token the pages concatenate to the whole sorted listing, each key once. |
| Text.LessIs | gamesync_reads.go:72-76 | The order of listings is by the first place where two names differ, a beginning before what it begins. |
| Reads.ReadDocuments | gamesync_reads.go:15-45 | Every name is answered in its place, or the first that cannot be answers for all; at most 256. |
| Listings.ReadOneIs | gamesync_reads.go:30-43 | A name is answered by its masked document, as missing, or as invalid. |
| Listings.MaskedReadIs | gamesync_store.go:186-200 | A masked read keeps name and times, shows nothing incomparable with the mask, and under a faithful mask each masked path as stored. |
| Reads.ListDocuments | gamesync_reads.go:47-90 | One page of the collection after the token, masked, with the next token, or the request's error. |
| Listings.CollectionHolds | gamesync_reads.go:69-74 | The collection docs/d holds docs/c/i exactly when c is d. |
| Listings.ListRequestIs | gamesync_reads.go:52-60 | A listing is asked of one collection with a size that is not negative and a token from it. |
| Listings.PagesAreSized | gamesync_reads.go:61-82 | A page has at most the entries asked for, 20 by default and never more than 100, and is full when more follows. |
| Reads.NextTokenIsAccepted | gamesync_reads.go:78-89 | The token of a page makes an acceptable request for the next. |
| Reads.ListingIsComplete | gamesync_reads.go:61-89 | Following the tokens of a collection returns exactly its documents, masked, in order, each once. |
| Reads.QueryGameSessions | session_service.go:186-259 | One page of the sessions that match, skipping the others, with the token the code takes from the last name; or the error of the tenant, search-configuration, parent or page checks. |
| Listings.QueryLists | session_service.go:219-248 | A query lists exactly the sessions that are shown to the caller, open, with enough places and participants, all the properties and one of the users asked for. |
| Listings.QueryRequestIs | session_service.go:116-203 | Another tenant, a negative number and a search beyond one's friends are refused. |
| Listings.QueriesAreSized | session_service.go:204-252 | A query's page has at most the entries asked for and is full when more follows. |
| Reads.QueryIsComplete | session_service.go:204-258 | Following a query's tokens visits exactly the matching sessions, in order, once. |
| Members.SortUsers | session_service.go:344-345 | Sorting by name keeps the same members, shared names included. |
| Members.PageLoop | session_service.go:346-357 | The page loop answers the first members behind the token, and a token if more follow. |
| Members.ListUserSessions | session_service.go:323-358 | One page of the members in some order by name, with the next token, or the error of the parent, page-size or membership check. |
| Listings.MembersAreListed | session_service.go:328-341 | A properly addressed session lists its members to a member who asks for no negative number, and refuses others. |
| Listings.MisaddressedMembers | session_service.go:328-330 | Any other address is refused. |
| Listings.MemberPagesAreSized | session_service.go:340-357 | A page of members has at most the entries asked for, a hundred by default, and is full when more follows. |
| Members.ListingIsCompleteExactly | session_service.go:340-357 | For a page size, following the tokens shows every member if and only if no page ends between two members of one name. |
| Members.EveryPageSizeIsCompleteExactly | session_service.go:340-357 | Every page size shows every member if and only if no two members share a name. |
| Members.SharedNamesAreLost | session_service.go:347-350 | Two members of one name, one to a page: the second is never shown. |
| Stun.XorUndoes | stun.go:84-87 | Masking twice with the same word gives the word back. |
| Stun.ParseTlv | stun.go:53-62 | Parsing inverts writing one attribute, padding included. |
| Stun.ParseInverts | stun.go:53-62 | A message body is read back as the attributes it was written from. |
| Stun.WalkAttributes | stun.go:25-49 | The walk never leaves the buffer, ends, succeeds exactly on bodies that are all attributes without credentials and with a valid last fingerprint, and collects the unhandled comprehension-required types in order. |
| Stun.UnhandledSplits | stun.go:43-47 | The unhandled types of a body are those of its attributes, in order. |
| Stun.UnhandledOne | stun.go:36-47 | A type is unhandled when it is below 0x8000 and no message integrity. |
| Stun.AppendAttribute | stun.go:53-62 | Header, value and padding are appended and the message stays aligned. |
| Stun.EncodeTypes | stun.go:66-70 | The listed types decode to the list. |
| Stun.MapAddress | stun.go:75-88 | The mapped address decodes, with the message's cookie and transaction id, to the address and port. |
| Stun.CanonicalTells | stun.go:75-81 | Four bytes stand for themselves in family 1, sixteen that hold an IPv4 address for it in family 1, other sixteen for themselves in family 2. |
| Stun.Seal | stun.go:90-95 | The length counts the fingerprint, which covers everything before it; the result parses to its attributes. |
| Stun.StunBindingResponse | stun.go:20-96 | Exactly the answerable requests get a response: aligned, with the right type, length, cookie and transaction id, parsing completely, closed by a valid fingerprint, and either 420 with exactly the unhandled types or the sender's own address, unmapped, with its family and port. |

## Left out

- Values are values: proto.Clone and the aliasing of nested map values inside setField, and the reuse of a slice's backing array by depart, are not modelled; maps and lists are reassigned as values.
- Machine.StepKeeps: runs stop short of the join that would wrap nextSequence around, after 2^63 joins in one game session; so do GamesyncServer.Server.IssueToken and RememberSession.
- Floating-point payloads are opaque bit patterns; no operation of the store computes on them.
- JWT and HMAC verification, gRPC streams, TLS, sockets, TURN, logging and probes: authorized sessions, caller ids, friend lists and datagrams are inputs.
- JSON encoding of attributes and latency, and their decoding from a token without a registry: attributes and latency arrive as values.
- Clocks, random bytes and generated names are parameters; the seed policy checks the length of the bytes it is given.
- CRC-32 is an arbitrary function from bytes to 32-bit words.
- Departures.ExpireMember: the registry's depart, which the code calls between the release of the map lock and the publication, is one step with them; the two never share state, and the runs of Machine and RegistryRuns are separate.
- GamesyncServer.Server.AddSubscriber: a stream may be added only to a game session somebody has joined, which an authorized session implies.
- Rooms: every user session is created active and nothing changes that, so its state is not kept; a user is known by the path tenants/.../users/uid that the code normalizes to.
- Rooms.AddUserKeeps: several definitions in one ticket are not modelled, because validateCallerDefinitions admits one.
- Reads.QueryGameSessions: a failing friend lookup is left out; friend lists are inputs.
- Tickets' phases on the Track stream, match tokens, session views without passwords, IssueMatchmakingIdToken, GetGameSession and GetDocument: answers built from the state without changing it.
- A user in at most one session of a pool: not claimed, since a direct join does not look at the pool.
- Every member leaving eventually: not claimed, since a member that never issues a token has no timer.
- datastore.go, messaging.go, friends.go, ugcstore.go and nncs.go: a table of contents each of whose requests reads or writes one entry or lists some, and services that answer each request from that request and fixed tables; no invariant spans their requests.
