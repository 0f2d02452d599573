# Verification model of the NorthKeep servers

This project models the logic of NorthKeep's two servers in Dafny and proves what their design documents promise of it. The
connector server holds shared memory rows, cloud project documents, OAuth credentials and subscription stamps; the sync server
holds encrypted vault versions, whole or in parts.

The model has five parts.

1. **Connector rows and the cloud project protocol** (`ProjectHead`, `RowStore`, `ConnectorStorage`, `ProjectProtocol`,
   `ProjectRuns`, `ProjectAnswers`, `ShareRuns`, `GatedWrites`, `HostedUpdates`, `HostedTexts`, `HostedHistory`). The
   in-memory store is a class whose methods are proved against functions on one account's state. `project_create`,
   `project_update`, `memory_forget` and the pending drain are programs whose awaits are steps; pushes, re-shares, acks,
   discards, forgets, unshares and `memory_remember` may run between any two of them.
2. **Part uploads** (`SyncStore`, `SyncStorage`, `SyncHandler`, `SyncRuns`, `UploadRuns`). Opening, writing, checking,
   committing, reading and pruning uploads, with the check and the install of a commit as separate steps.
3. **Project documents and milestone plans** (`Text`, `Headings`, `ProjectDoc`, `ProjectMerge`, `ProjectTextRule`,
   `ProjectLog`, `ProjectHistory`, `MilestoneLine`, `MilestoneIds`, `MilestoneDates`, `MilestonePlan`, `MilestoneMoves`,
   `MilestonePasses`, `MilestoneGate`, `ProjectUpdate`). Two parser and printer pairs over characters, the merge, the Log
   roller, the agents' transitions, the write gate, and a hosted update from end to end.
4. **Credentials and entitlement** (`Credentials`, `CredentialRuns`, `CredentialAnswers`, `Entitlement`). Symbolic hashing and
   wrapping, the chain of custody of an account's key with pepper rotation, and the time constants that bound how many
   accounts one subscription opens.
5. **The rate limiter** (`RateLimiter`, `RateRuns`), the same code in both servers.

Code that updates state or loops is a method, proved equal to a specification function; what the design promises is proved about
these functions, over all inputs and over whole runs. Each part uses its own `Run` of states and steps.

## Assumptions of the runs

- Project protocol: one account at a time (the class methods prove that no other account changes); rows are read decrypted;
  generated ids are new; an id names one scope and one kind (project document or not) for good, and an ack keeps the kind;
  `memory_remember` refuses a working memory in a project scope, as the tool does. The starting store may hold legacy rows.
  The text and the archive of an update are built from the head it read, without a carriage return; a project's name and a date
  have no newline. That an unshared scope stays out supposes stored tombstones are dated; every step keeps that
  (`ShareRuns.TombstonesDated`).
- Uploads: upload ids are new; sha256 is an opaque function; the clock may be anything. Only the readable
  time of a replaced version needs the account's earlier replacements to carry earlier times.
- Entitlement: the nonce is an injective function of subscriber and window, only minted attestations verify, the sync server's
  nonce key is set, the connector's clock does not go back, and at most a second passes between the two readings one request
  makes of it. Only the nine-account bound needs the two services' clocks to agree.
- Credentials: the hash is injective, a wrap opens under exactly the key it was made with, authorization codes and tokens are new.
  Pairing codes may repeat. Each read of a clock is arbitrary. In a second rotation's theorem the instances of the first hold the
  old pepper alone or the new one with the old as previous.
- Save times lie in the range of years a JavaScript time can have.
- Rate limiter: the limit and the key cap are at least 1, as `rateLimitFromEnv` and the defaults give; the clock does not go back.
- `looksLikePass` is an opaque predicate over text.

## Findings

- A vault order claim that names another server, or a reset, makes the guard forget the version of the first server, so an older
  push of it is then accepted (`VaultOrderRuns.AnotherServerForgetsTheFirst`). An accepted version stays protected exactly while
  the last accepted claim names its server at it or later (`VaultOrderRuns.AcceptedVersionProtectedIff`,
  `VaultOrderRuns.OlderRefusedIff`).
- `project_create` reads the tombstones once, before the counter. An unshare between the two is not noticed and the create lands
  in a tombstoned scope, hidden (`ProjectRuns.CreateCanLandRevoked`, `ProjectRuns.CreateHiddenIff`). `project_update` reads them
  again after the counter and never does.
- A new bullet written above a Log keeps the old entries exactly when the Log is empty or starts with a bullet
  (`ProjectHistory.NewEntriesOnTopIff`); else the text above the first bullet stops being an entry of its own
  (`ProjectHistory.LooseTextJoinsTheNewEntry`). Over a run this is decided at the first Log entry
  (`ProjectHistory.HistoryConserved`, `HostedHistory.LandedHistoryConserved`).
- The refusal "There is no free milestone id left" goes by the greatest id in use, passed or given, not by the free ones: exactly
  when an id in use leaves fewer numbers up to 999 than there are proposals without an id (`MilestoneMoves.NumbersLeftIff`), also
  while M1 is free (`MilestoneMoves.FreeIdsGoUnused`).
- A pass recorded at a save time in another year than 0 to 9999, and at no other, leaves a plan that does not read back
  (`MilestonePasses.ReportReadsBackIff`, `MilestonePasses.LateReportSpoilsThePlan`).
- An account's wrap is moved to the current pepper only when the account is used, so a second rotation leaves behind exactly the
  accounts no request moved during the first (`CredentialRuns.SecondRotation`, `CredentialRuns.UnusedAccountLeftBehind`).

## Model

| member | source | states |
|---|---|---|
| `ProjectHead.ProjectScopeView` | apps/connector-server/src/project-head.ts:36-61 | The filters and the loop over a list of rows yield the declarative view of the set of rows, so the head and the stale ids do not depend on the order of the list. |
| `ProjectHead.ViewIsUnique` | apps/connector-server/src/project-head.ts:29-61 | A set of rows has one view: head and stale ids are determined. |
| `ConnectorStorage.InMemoryConnectorStorage.ListEntries` | apps/connector-server/src/storage.ts:574-577 | Lists exactly the account's rows, each once. |
| `ConnectorStorage.InMemoryConnectorStorage.ListPendingEntries` | apps/connector-server/src/storage.ts:744-748 | Lists exactly the rows the user has not pulled yet. |
| `ConnectorStorage.InMemoryConnectorStorage.AcceptVaultClaim` | apps/connector-server/src/storage.ts:412-421 | Records a claim exactly when the guard accepts it and leaves every other account alone. |
| `ConnectorStorage.InMemoryConnectorStorage.BumpSeq` | apps/connector-server/src/storage.ts:403-409 | Moves one counter of one account up by one, creating it, and returns it. |
| `ConnectorStorage.InMemoryConnectorStorage.ReplaceScopes` | apps/connector-server/src/storage.ts:579-611 | The loops over the payload and the stored rows leave exactly the state of an accepted push, or refuse a stale claim and change nothing; other accounts are untouched. |
| `ConnectorStorage.InMemoryConnectorStorage.FindTombstoneConflicts` | apps/connector-server/src/tombstones.ts:35-68 | The conflicts are exactly the pushed scopes whose latest tombstone the shared_at does not clear. |
| `ConnectorStorage.InMemoryConnectorStorage.ReplaceScopesAcceptingReshare` | apps/connector-server/src/storage.ts:655-675 | A conflict or a stale claim changes nothing; otherwise the push, and exactly the cleared tombstones gone. |
| `ConnectorStorage.InMemoryConnectorStorage.WriteConnectorRows` | apps/connector-server/src/storage.ts:696-730 | The compare-and-swap write: refused when the counter moved, else one counter step, the rows inserted at it and a pending replaced row gone. |
| `ConnectorStorage.InMemoryConnectorStorage.DiscardPending` | apps/connector-server/src/storage.ts:732-742 | Deletes exactly the named rows that are pending, moves each touched scope's counter and returns the count. |
| `ConnectorStorage.InMemoryConnectorStorage.UnshareScope` | apps/connector-server/src/storage.ts:617-653 | Deletes the scope's rows, moves its counter if it exists, and writes a tombstone under the cap and entitlement rules. |
| `ConnectorStorage.InMemoryConnectorStorage.AckEntry` | apps/connector-server/src/storage.ts:763-779 | Renames a delivered row onto its vault id, moves its scope's counter and points a forget queued for it at the new id. |
| `ConnectorStorage.InMemoryConnectorStorage.ApplyForget` | apps/connector-server/src/storage.ts:781-786 | Deletes the row, moves its scope's counter and clears the queued forget. |
| `ConnectorStorage.InMemoryConnectorStorage.ReadScopeSeq` | apps/connector-server/src/storage.ts:690-694 | Returns the counter, creating it at 0 so that a racing unshare moves it too. |
| `ConnectorStorage.InMemoryConnectorStorage.GetEntry` | apps/connector-server/src/storage.ts:681-684 | Finds the row under an id, in the account alone. |
| `ConnectorStorage.InMemoryConnectorStorage.ListTombstones` | apps/connector-server/src/storage.ts:677-679 | Lists the account's tombstones. |
| `ConnectorStorage.InMemoryConnectorStorage.EnqueueForget` | apps/connector-server/src/storage.ts:750-757 | Queues the id once. |
| `ConnectorStorage.InMemoryConnectorStorage.ListPendingForgets` | apps/connector-server/src/storage.ts:759-761 | Lists exactly the queued ids. |
| `RowStore.PushLeavesExactly` | apps/connector-server/src/storage.ts:579-611 | After an accepted push a pushed scope holds exactly the payload's rows for it (the last entry of an id decides) and the undelivered connector rows the payload does not name. |
| `RowStore.KeyedPush` | apps/connector-server/src/storage.ts:579-611 | A push keeps every row under its own id. |
| `RowStore.ReshareEffects` | apps/connector-server/src/storage.ts:655-675 | A refused or conflicting push changes nothing; a tombstone goes only through a push of its scope whose shared_at is strictly later, and an accepted push leaves none it cleared. |
| `RowStore.LatestBounds` | apps/connector-server/src/tombstones.ts:35-68 | The latest tombstone gathered for a scope is one of its tombstones and no other is later. |
| `VaultOrderRuns.ClaimsOfOneServerAreOrdered` | apps/connector-server/src/storage.ts:412-421 | Of two accepted claims of one server, with no reset and no other server between them, the later never carries the older version. |
| `VaultOrderRuns.ClaimAcceptedIff` | apps/connector-server/src/storage.ts:412-421 | After any run with an accepted claim, a claim that names a server and is no reset is accepted exactly when the last accepted claim names another server, or none, or no later version. |
| `VaultOrderRuns.OlderRefusedIff` | apps/connector-server/src/storage.ts:412-421 | All claims of a server older than a version are refused exactly while the order held names that server at that version or later. |
| `VaultOrderRuns.AcceptedVersionProtectedIff` | apps/connector-server/src/storage.ts:412-421 | Over a run: once a version of a server was accepted, every older claim of that server is refused exactly when the last accepted claim names the server at that version or later. |
| `VaultOrderRuns.AnotherServerForgetsTheFirst` | apps/connector-server/src/storage.ts:412-421 | Without that condition it fails: three accepted claims where a claim of another server lets an older version of the first one through. |
| `VaultOrderRuns.OrderIsLastAccepted` | apps/connector-server/src/storage.ts:412-421 | The order held after any run of claims is the last accepted one's. |
| `VaultOrderRuns.NoClaimAcceptedIff` | apps/connector-server/src/storage.ts:412-421 | A bare claim is accepted exactly when no claim was accepted yet or the last accepted one named no server. |
| `VaultOrderRuns.BareClaimsStayRefused` | apps/connector-server/src/storage.ts:412-421 | Once a server was named, a bare claim stays refused until a reset that names none is accepted. |
| `ProjectProtocol.WriteKeeps` | apps/connector-server/src/storage.ts:696-730 | A landing write whose base no other pending document has keeps the account invariant and moves exactly its scope's counter. |
| `ProjectProtocol.PushKeeps` | apps/connector-server/src/storage.ts:579-611 | A push keeps the account invariant and moves the counter of every scope it changes. |
| `ProjectProtocol.UnshareKeeps` | apps/connector-server/src/storage.ts:617-653 | So does an unshare; no row of the scope is left and no other scope's tombstone changes. |
| `ProjectProtocol.AckKeeps` | apps/connector-server/src/storage.ts:763-779 | So does an ack, when the two ids are of one kind. |
| `ProjectProtocol.OnePerBaseAfterWrite` | apps/connector-server/src/mcp.ts:1113-1133 | A document written on a base no other pending document has, with the replaced one gone, keeps one document per base. |
| `ProjectRuns.StepKeeps` | apps/connector-server/src/mcp.ts:910-1133 | Every step of every interleaved call keeps the invariant: rows under their ids, write numbers below counters, one pending document per base, and what each waiting call knows. |
| `ProjectRuns.OneDocumentPerBase` | apps/connector-server/src/mcp.ts:910-960 | In every state of every run a project scope holds at most one pending document per base revision. |
| `ProjectRuns.RowsNeverOutrunCounters` | apps/connector-server/src/storage.ts:704-729 | In every state no row's write number exceeds its scope's counter. |
| `ProjectRuns.CounterFreezesScope` | apps/connector-server/src/storage.ts:403-409 | If a scope's counter is the same at two instants of a run, so are its rows and its tombstones. |
| `ProjectRuns.LandedUpdateSawTheRows` | apps/connector-server/src/mcp.ts:1062-1133 | A project_update that lands wrote over exactly the rows it had read, its head is still the head, and the scope is not unshared. |
| `ProjectRuns.RevisionIsHead` | apps/connector-server/src/mcp.ts:1113-1133 | The revision a successful create or update returns is the scope's head at that instant, also as the next reader sees it. |
| `ProjectRuns.CreateHiddenIff` | apps/connector-server/src/mcp.ts:910-960 | A created document is hidden at its landing exactly when its scope was already unshared at the counter read. |
| `ProjectRuns.CreateCanLandRevoked` | apps/connector-server/src/mcp.ts:910-960 | A concrete run in which a create lands in a tombstoned scope: the unshare falls between the tombstone check and the counter read. |
| `ProjectRuns.DrainDeletesOnlyRevokedWrites` | apps/connector-server/src/create-server.ts:989-1001 | A pending row the drain deletes was written while its scope's tombstone stood, whatever ran between its two reads and the delete. |
| `ProjectAnswers.UpdateLandsOnItsRevision` | apps/connector-server/src/mcp.ts:1062-1133 | In any interleaved run a project_update begun for a revision lands only while that revision is the head of its scope, so an agent that saw an older document never writes over a newer one. |
| `ProjectAnswers.StaleUpdateNeverLands` | apps/connector-server/src/mcp.ts:1064-1082 | An update that sees several heads, none, or one that is not the revision it names changes nothing there and never lands. |
| `ProjectAnswers.UndisturbedUpdateLands` | apps/connector-server/src/mcp.ts:1062-1133 | An update of the standing head lands when nobody disturbs it, its text is accepted, the scope is not unshared and two more rows fit. |
| `ProjectAnswers.UndisturbedCreateLands` | apps/connector-server/src/mcp.ts:908-958 | So does a create in a scope without a working memory when one more row fits. |
| `ProjectAnswers.RevokedAtStartNeverLands` | apps/connector-server/src/mcp.ts:908-1060 | Neither tool writes to a scope whose tombstone stood when the call first looked. |
| `ProjectAnswers.OccupiedNeverCreated` | apps/connector-server/src/mcp.ts:910-935 | A create that finds a working memory in its scope, also a waiting or forget-queued one, changes nothing and never lands. |
| `ProjectAnswers.LandsIff` | apps/connector-server/src/storage.ts:696-730 | The last step of a create or update lands exactly while the scope's counter is the one the call read before its rows; else nothing is written. |
| `ProjectAnswers.CapWasChecked` | apps/connector-server/src/mcp.ts:1116-1121 | A call ready to write counted the account's rows at a step of its own and found room for what it adds. |
| `ProjectAnswers.LandedRow` | apps/connector-server/src/mcp.ts:1113-1133 | A landed document stands as a pending working memory with the call's text, written after every row of its scope. |
| `ProjectAnswers.AckedIsHeadIff` | apps/connector-server/src/storage.ts:763-779 | An acked document keeps its text and is the head of its scope if and only if no other pending document is based on its vault id. |
| `ProjectAnswers.ForgetGoesOnIff` | apps/connector-server/src/mcp.ts:538-557 | memory_forget goes on to queue an id if and only if a row stands under it that is no project document. |
| `ProjectAnswers.Remembered` | apps/connector-server/src/mcp.ts:404-506 | memory_remember stores its row, waiting, at a new counter of its scope and leaves every other row. |
| `ShareRuns.UnshareLeavesTombstoneIff` | apps/connector-server/src/storage.ts:617-653 | A tombstone of the scope stands after an unshare if and only if one stood before, a row was deleted, or the name is short, the account below its cap and paid or once stamped. |
| `ShareRuns.UnshareDates` | apps/connector-server/src/storage.ts:617-653 | A tombstone that stands after an unshare is dated at that instant or later: an older one of the scope is moved up, a later one kept, and nothing is dated otherwise. |
| `ShareRuns.UnsharedStaysOut` | apps/connector-server/src/tombstones.ts:35-68 | After an unshare that leaves a tombstone, a push of the scope whose shared_at is missing, unparsable or not later is refused and changes nothing; a push of the scope alone is refused for its tombstone exactly when its shared_at is not later than this unshare and every earlier one. |
| `ShareRuns.RevokedUntilReshared` | apps/connector-server/src/storage.ts:655-675 | Over any run from dated tombstones such a push stays refused, whatever runs in between, until a push with a later shared_at was accepted. |
| `ShareRuns.DrainDeletesExactly` | apps/connector-server/src/create-server.ts:989-1001 | The drain deletes exactly the rows it listed as waiting in a scope it then found revoked, if they still wait; every other row stays as it is. |
| `ShareRuns.ForgetQueues` | apps/connector-server/src/mcp.ts:557 | Once memory_forget found the row, its id is queued and nothing else changes. |
| `ShareRuns.QueuedUntilApplied` | apps/connector-server/src/storage.ts:750-786 | Over any run a queued forget stays queued, under the vault id once the row was acked, until exactly that forget is applied. |
| `ShareRuns.AppliedIsGone` | apps/connector-server/src/storage.ts:781-786 | Applying a forget takes the row and the queued id away, and no other. |
| `ShareRuns.OrderFollowsClaims` | apps/connector-server/src/storage.ts:579-675 | In every run of the protocol the order an account holds is the one the claims of its pushes lead to, so every statement about runs of claims holds of it. |
| `GatedWrites.LandedUpdateIsGated` | apps/connector-server/src/mcp.ts:1093-1100 | In every interleaved run the text a landed update puts at the head was checked by the write gate against the very document it takes the place of. |
| `GatedWrites.LandedUpdateKeepsPasses` | apps/connector-server/src/mcp.ts:1093-1100 | So no landed update adds, changes, moves or removes a passed milestone of the scope's live document, for any way of reading its Milestones bodies; `ProjectUpdate.BodiesIn` is the one the server has. |
| `GatedWrites.UpdatesKeepPasses` | apps/connector-server/src/mcp.ts:1062-1133 | Over any stretch of a run in which only landed updates change the text of a scope's head, its passes stay. |
| `HostedUpdates.HostedUpdatesKeepPasses` | apps/connector-server/src/mcp.ts:1062-1133 | The same for the passes as the server itself reads them in the document. |
| `HostedUpdates.BuiltTextIsGated` | apps/connector-server/src/mcp.ts:1086-1100 | The text an update builds from a head, through merge, milestones and roll, always passes the write gate against that head. |
| `HostedTexts.ArchiveReadsBack` | apps/connector-server/src/project-doc.ts:267-275 | An archive memory, cut into entries as a Log is, gives back exactly the entries it was written from. |
| `HostedTexts.UpdatedIsWrite` | apps/connector-server/src/mcp.ts:1086-1093 | Every hosted update, with a Log entry, a plan, both or neither, is one write of the history. |
| `HostedTexts.BuiltWrote` | apps/connector-server/src/mcp.ts:1086-1101 | The stored text and the archive memory a hosted update builds are one step of the history, on the texts as they read back. |
| `HostedHistory.ArchiveIsStored` | apps/connector-server/src/mcp.ts:1122-1132 | The archive memory of a landed update is stored by the same write as the document. |
| `HostedHistory.LandedHistoryConserved` | apps/connector-server/src/mcp.ts:1062-1133 | Over the landed updates of a scope in any interleaved run, the Log of the live document and the archive memories stored with it hold the new entries, newest first, then the old ones, if and only if the Log is empty or starts with a bullet at the first landing with a Log entry; for any way of building updates that writes the history. |
| `HostedHistory.HostedHistoryConserved` | apps/connector-server/src/mcp.ts:1062-1133 | The same for the way the server builds them. |
| `SyncStorage.InMemoryStorage.PutBlob` | apps/sync-server/src/storage.ts:179-195 | A single-request put at the right base stores version base + 1 and supersedes the current upload, else reports the version; nothing else changes. |
| `SyncStorage.InMemoryStorage.OpenUpload` | apps/sync-server/src/storage.ts:197-202 | Opens an upload and replaces every open one of the account. |
| `SyncStorage.InMemoryStorage.WritePart` | apps/sync-server/src/storage.ts:204-209 | Writes a part of an open upload once; a second write of it changes nothing. |
| `SyncStorage.InMemoryStorage.ReadOpenParts` | apps/sync-server/src/storage.ts:211-215 | Lists the parts of an open upload of the account in ascending order, and nothing of any other. |
| `SyncStorage.InMemoryStorage.ReadPart` | apps/sync-server/src/storage.ts:248-253 | Reads a part of a committed upload of the account, and nothing of any other. |
| `SyncStorage.InMemoryStorage.CommitUpload` | apps/sync-server/src/storage.ts:217-246 | Refuses an upload that is not open or whose part count differs, then a base that is not the current version; else marks the upload committed, supersedes the current one and stores version base + 1. |
| `SyncStorage.InMemoryStorage.PruneUploads` | apps/sync-server/src/storage.ts:255-273 | The loop, the sort and the deletes leave exactly what pruning allows: no replaced or over-age open upload, and a newest-first prefix of at most three superseded ones inside the readable time; other accounts and the current upload untouched. |
| `SyncStorage.NewestFirst` | apps/sync-server/src/storage.ts:269-270 | The sort yields a permutation in descending order of age stamp. |
| `SyncHandler.CheckParts` | apps/sync-server/src/handler.ts:265-281 | The loop accepts exactly the contiguous, full-size-but-last, right-sized, right-headed and right-hashed lists of parts. |
| `SyncHandler.PartCountForced` | apps/sync-server/src/handler.ts:190-210 | The part count of an accepted commit is forced to be ceil(size / PART_BYTES), and stays within the limit. |
| `SyncRuns.InstalledPartsWereChecked` | apps/sync-server/src/handler.ts:200-226 | If a commit succeeds, the installed upload's parts are exactly the parts that were read and checked, whatever ran in between. |
| `SyncRuns.StoredVersionsReadable` | apps/sync-server/src/storage.ts:217-253 | In every state a version stored in parts has all parts readable, and they join to bytes of the committed size and digest. |
| `SyncRuns.CommittedBytesStay` | apps/sync-server/src/storage.ts:248-253 | Reading a part of a committed upload later returns the same bytes or nothing. |
| `SyncRuns.AtMostOneOpen` | apps/sync-server/src/storage.ts:197-202 | Each account has at most one open upload in every state. |
| `SyncRuns.SuccessMovesVersion` | apps/sync-server/src/storage.ts:179-246 | A successful put or commit was made at the current version and raises it by exactly one. |
| `SyncRuns.OnlySuccessMovesVersion` | apps/sync-server/src/storage.ts:179-246 | Nothing else moves a version. |
| `SyncRuns.EachBaseOnce` | apps/sync-server/src/storage.ts:179-246 | Each base version is the base of at most one successful put or commit. |
| `UploadRuns.PutSucceedsIff` | apps/sync-server/src/storage.ts:179-195 | A put succeeds if and only if its base is the current version; it then stores exactly its bytes, and otherwise changes nothing. |
| `UploadRuns.CommitSucceedsIff` | apps/sync-server/src/storage.ts:217-246 | A checked commit is installed if and only if its upload is still open, no part was added to those checked, and its base is the current version; else nothing changes. |
| `UploadRuns.CheckGoesOnIff` | apps/sync-server/src/handler.ts:200-215 | A commit goes on to be installed if and only if its upload is open and the parts read from it are good. |
| `UploadRuns.VersionNamesContent` | apps/sync-server/src/storage.ts:179-246 | Over any run an account that shows the same version at two instants holds the same content at both. |
| `UploadRuns.PartsWereWritten` | apps/sync-server/src/storage.ts:204-209 | Every part of every upload, open or committed, is what a part write of that account and upload carried. |
| `UploadRuns.ReplacedStaysReadable` | apps/sync-server/src/storage.ts:248-282 | Over any run a version in parts that a put or commit replaces at t reads back byte for byte, while the account's prunes run within SUPERSEDED_READABLE_MS of t and find fewer than three of its uploads replaced since. |
| `UploadRuns.PruneDropsAside` | apps/sync-server/src/storage.ts:265-273 | Past that time, or behind three uploads replaced later, the next prune drops it and no part of it is read. |
| `UploadRuns.OutOfUse` | apps/sync-server/src/storage.ts:275-279 | Over any run every committed upload that is not its account's current one was replaced by a step, and its age counts from that step. |
| `UploadRuns.OpenStaysIff` | apps/sync-server/src/storage.ts:197-273 | An open upload stays open through a step, keeping its parts, if and only if the step is not a newer upload of the account, its own commit, or a prune after OPEN_UPLOAD_TTL_MS. |
| `UploadRuns.PartIsThere` | apps/sync-server/src/storage.ts:204-209 | A part written to an open upload is there, with the bytes of its first writing. |
| `Headings.HeadingReadsBack` | apps/connector-server/src/project-doc.ts:59 | A written heading line is recognised with its level and title. |
| `Headings.HeadingTitleOk` | apps/connector-server/src/project-doc.ts:59 | Every recognised heading has level 1 to 6 and a trimmed title without line terminators. |
| `Headings.HeadingIff` | apps/connector-server/src/project-doc.ts:59 | The recogniser answers a level and title if and only if the line splits as the pattern HEADING_RE says, with that many hashes and that text, trimmed. |
| `ProjectDoc.ParseProjectDoc` | apps/connector-server/src/project-doc.ts:101-126 | The loop over the lines computes the fold of the grammar, for any heading recogniser. |
| `ProjectDoc.PrintThenParse` | apps/connector-server/src/project-doc.ts:101-146 | Every well-formed document survives print-then-parse. |
| `ProjectDoc.ParsePrintParse` | apps/connector-server/src/project-doc.ts:101-146 | For every text without a carriage return, parsing yields a well-formed document, and parse of print of parse is parse. |
| `ProjectMerge.MakeDatedBullet` | apps/connector-server/src/project-doc.ts:335-340 | One bullet with the given date in front of the text, from which every leading stamp was stripped, however many there were. |
| `ProjectMerge.NeverDoubleStamped` | apps/connector-server/src/project-doc.ts:330-340 | Dating an already dated bullet gives the same bullet with the new date. |
| `ProjectMerge.SetKnownBody` | apps/connector-server/src/project-doc.ts:342-350 | Sets the body of the first section of the title, or appends one. |
| `ProjectMerge.FindInsertion` | apps/connector-server/src/project-doc.ts:364-375 | The loop finds the place just after the last known heading that precedes the title in canonical order. |
| `ProjectMerge.EnsureKnownSections` | apps/connector-server/src/project-doc.ts:356-362 | The loop inserts each missing known section at that place. |
| `ProjectMerge.EnsuredFromInOrder` | apps/connector-server/src/project-doc.ts:352-375 | Missing known sections go in in canonical order when the present ones are in order. |
| `ProjectMerge.MergeProjectDoc` | apps/connector-server/src/project-doc.ts:167-198 | The step-by-step updates compute the specified merge. |
| `ProjectMerge.MergeBodies` | apps/connector-server/src/project-doc.ts:167-198 | The body of every title after a merge: three replaced, the decision below the old Decisions, the entry above the old Log, all others as they were. |
| `ProjectMerge.MergeKeeps` | apps/connector-server/src/project-doc.ts:167-198 | A merge keeps the preamble, every section of another title in order, the old Decisions as a prefix and the old Log as a suffix, and has every known section. |
| `ProjectMerge.MergeWrites` | apps/connector-server/src/project-doc.ts:167-198 | A merge puts each given text into its section, the decision as the last line of Decisions and the entry as the first of the Log; a section of which nothing is given keeps its body. |
| `ProjectTextRule.HeadingOpens` | apps/connector-server/src/project-text.ts:18-20 | Every line the document parser takes for a heading is refused by the text rule. |
| `ProjectTextRule.OpensIff` | apps/connector-server/src/project-text.ts:18-20 | The rule refuses a line if and only if it starts with up to three spaces, one to six hashes, blanks and a character that is no space. |
| `ProjectTextRule.BulletOk` | apps/connector-server/src/project-text.ts:11-26 | A dated bullet over text that meets the rule holds no heading line, whatever the stripping removed. |
| `ProjectTextRule.MergedReadsBack` | apps/connector-server/src/project-text.ts:11-26 | An update whose texts meet the rule leaves a document that survives print-then-parse. |
| `ProjectLog.SplitLogEntries` | apps/connector-server/src/project-doc.ts:211-226 | The loop computes the fold that cuts the Log at its bullets. |
| `ProjectLog.SplitJoined` | apps/connector-server/src/project-doc.ts:211-226 | Entries joined by newlines split into themselves. |
| `ProjectLog.SplitIsOk` | apps/connector-server/src/project-doc.ts:211-226 | Every Log splits into such entries. |
| `ProjectLog.RollProjectLog` | apps/connector-server/src/project-doc.ts:242-265 | Counting down yields the specified outcome: nothing while the document fits or has one entry, else the greatest count within the limit that fits, or one. |
| `ProjectLog.OutcomeUnique` | apps/connector-server/src/project-doc.ts:242-265 | The specification decides the outcome. |
| `ProjectLog.RollLosesNothing` | apps/connector-server/src/project-doc.ts:242-265 | Splitting the new Log and appending the reversed archive gives the original entries. |
| `ProjectLog.RollKeepsTheRest` | apps/connector-server/src/project-doc.ts:242-265 | The preamble, the sections of other titles and every other body stay. |
| `ProjectLog.OverCapMeansOneEntry` | apps/connector-server/src/project-doc.ts:232-265 | If the rolled document is still over the cap, at most one entry is left. |
| `ProjectHistory.NewEntriesOnTopIff` | apps/connector-server/src/project-doc.ts:188-226 | A bullet written above a trimmed Log adds its own entries in front and leaves the old ones if and only if the Log is empty or starts with a bullet. |
| `ProjectHistory.NewEntryOnTop` | apps/connector-server/src/project-doc.ts:188-226 | The same for a bullet that is one entry: it is the new first entry if and only if the Log is empty or starts with a bullet. |
| `ProjectHistory.HistoryConserved` | apps/connector-server/src/project-doc.ts:167-265 | Over any run of updates, each merged, given a new plan or not, and rolled, with or without a Log entry, the Log and the archives together are the new entries, newest first, then the old history, if and only if the Log is empty or starts with a bullet when the first Log entry comes. |
| `ProjectHistory.LooseTextJoinsTheNewEntry` | apps/connector-server/src/project-doc.ts:206-226 | The simplest case where it fails: a line of text above the first bullet is an entry of its own until a new bullet takes it in. |
| `MilestoneLine.ShapeIff` | apps/connector-server/src/project-milestones.ts:49 | The line pattern matches exactly the lines it describes, each with one set of captures. |
| `MilestonePlan.LineIff` | apps/connector-server/src/project-milestones.ts:93-143 | A line parses as a milestone exactly when the milestone is valid and the line is its formatted line. |
| `MilestonePlan.FormatInjective` | apps/connector-server/src/project-milestones.ts:93-104 | Distinct valid milestones have distinct lines. |
| `MilestonePlan.ParseMilestoneSection` | apps/connector-server/src/project-milestones.ts:145-169 | The parser, with its set of ids seen, computes the specified plan. |
| `MilestonePlan.ReadItems` | apps/connector-server/src/project-milestones.ts:157-168 | The loop with its growing list computes the fold that refuses repeated ids and passes after open milestones. |
| `MilestonePlan.SectionIff` | apps/connector-server/src/project-milestones.ts:107-169 | A body parses as a plan or none exactly when that plan is valid and the body is its text, up to CRLF. |
| `MilestonePlan.PrintThenParsePlan` | apps/connector-server/src/project-milestones.ts:107-169 | Every valid plan or none survives print-then-parse. |
| `MilestonePlan.ParseThenPrintPlan` | apps/connector-server/src/project-milestones.ts:107-169 | Every body without a carriage return that parses is valid and is reproduced byte for byte. |
| `MilestoneIds.IdOfValid` | apps/connector-server/src/project-milestones.ts:16 | A written number is an id exactly from 1 to 999. |
| `MilestoneIds.NumberOfId` | apps/connector-server/src/project-milestones.ts:286-293 | The number read back from a written id is that number, so fresh numbers give fresh ids. |
| `MilestoneMoves.OpenProposals` | apps/connector-server/src/project-milestones.ts:286-297 | The counter that skips used ids hands out consecutive numbers after the greatest used one, and runs out exactly past M999. |
| `MilestoneMoves.ReplacePlan` | apps/connector-server/src/project-milestones.ts:262-311 | The checks and loops accept exactly the specified proposals and build the specified plan. |
| `MilestoneMoves.ReplacedKeeps` | apps/connector-server/src/project-milestones.ts:257-311 | From a readable plan a replacement is a valid plan whose passed milestones are exactly those before, first and in order, with distinct ids and stamp room on every open line. |
| `MilestoneMoves.ReplacedCarries` | apps/connector-server/src/project-milestones.ts:262-311 | An accepted list stands as it was given behind the passes: each title, test and given id, in order, and all open. |
| `MilestoneMoves.NoneReadsBackIff` | apps/connector-server/src/project-milestones.ts:266-271 | "none:" is accepted if and only if the plan is readable and without passes and the reason is fit for a line; the section then reads back as that reason. |
| `MilestoneMoves.NumbersLeftIff` | apps/connector-server/src/project-milestones.ts:286-297 | Proposals some of which have no id, and otherwise fine, are accepted if and only if every id in use, passed or given, leaves as many numbers above it as there are proposals without an id. |
| `MilestoneMoves.NoNumberAfterTheLast` | apps/connector-server/src/project-milestones.ts:286-297 | An id in use, passed or given, that leaves fewer numbers above it refuses the proposals whatever else holds. |
| `MilestoneMoves.FreeIdsGoUnused` | apps/connector-server/src/project-milestones.ts:286-297 | A concrete refusal with M1 free: M999 and a proposal without an id; with M1 written on it the same list is accepted. |
| `MilestoneDates.PassDateIff` | apps/connector-server/src/project-milestones.ts:315-319 | The day cut from the ISO form of a save time is a calendar day if and only if the year is 0 to 9999. |
| `MilestonePasses.RecordedCurrent` | apps/connector-server/src/project-milestones.ts:322-343 | With stamp room, reporting the current milestone always succeeds and changes exactly its line. |
| `MilestonePasses.RecordedKeeps` | apps/connector-server/src/project-milestones.ts:315-343 | It adds exactly one pass after the earlier ones and leaves stamp room; the plan stays valid if and only if the stamped day is a calendar day. |
| `MilestonePasses.StampTakesItsRoom` | apps/connector-server/src/project-milestones.ts:297-301 | The room kept on an open line is exactly what an agent's stamp takes: it is kept if and only if the stamped line fits. |
| `MilestonePasses.ReportReadsBackIff` | apps/connector-server/src/project-milestones.ts:315-343 | A report at a save time adds exactly its pass, and the printed plan reads back as itself if and only if the year is 0 to 9999. |
| `MilestonePasses.LateReportSpoilsThePlan` | apps/connector-server/src/project-milestones.ts:315-343 | A concrete one: a report on 1 January 10000 stamps +010000-01, and the plan is no longer valid. |
| `MilestonePasses.FinishesAfterOpenCount` | apps/connector-server/src/project-milestones.ts:189-192 | A plan is finished after exactly as many reports as it has open milestones; one more is refused. |
| `MilestoneGate.AssertSectionKeepsPasses` | apps/connector-server/src/project-milestones.ts:418-459 | The map of passes that is emptied, the order check and the open-line check accept exactly the writes that keep every pass in place and add at most the allowed one. |
| `MilestoneGate.ChecksSound` | apps/connector-server/src/project-milestones.ts:430-450 | What the loops check implies that the passes are the old ones, in order, then at most the allowed one. |
| `MilestoneGate.ChecksComplete` | apps/connector-server/src/project-milestones.ts:430-450 | And every such write passes the checks. |
| `MilestoneGate.PassesOnlyGrow` | apps/connector-server/src/project-milestones.ts:418-459 | Over any run of accepted writes an unreadable section stays as it is; in a readable one the passes only grow at the end, by no more than the allowed ones. |
| `MilestoneGate.HostedWritesKeepPasses` | apps/connector-server/src/mcp.ts:1093-1100 | A run of hosted writes leaves the passes exactly as they were. |
| `ProjectUpdate.SetMilestonesSection` | apps/connector-server/src/mcp.ts:164-173 | Puts the plan into its section, or a new section after Current Status. |
| `ProjectUpdate.WithPlanBodies` | apps/connector-server/src/mcp.ts:164-173 | In a document with at most one plan the new one is then its only one. |
| `ProjectUpdate.WithPlanKeepsBodies` | apps/connector-server/src/mcp.ts:164-173 | Putting a plan in leaves the body of every other title. |
| `ProjectUpdate.NewPlanPlace` | apps/connector-server/src/mcp.ts:164-173 | A new plan section stands right after the first Current Status that is not the title, or last when there is none; all other sections stay, in order. |
| `ProjectUpdate.RolledOk` | apps/connector-server/src/project-doc.ts:242-265 | Rolling leaves a well-formed document well-formed. |
| `ProjectUpdate.ReplacedAccepted` | apps/connector-server/src/project-milestones.ts:262-459 | Every replacement passes the write gate. |
| `ProjectUpdate.UpdateReadsBack` | apps/connector-server/src/mcp.ts:1086-1100 | From the stored text to the printed one, through merge, milestones and roll: the document reads back as built, its plan is untouched or exactly the replacement, and the gate accepts it. It holds for all section names that meet `NamesOk`. |
| `ProjectUpdate.NamesAreOk` | apps/connector-server/src/project-doc.ts:25-31 | The five known headings and the Milestones heading of the source are such names: distinct, lasting through print and parse, and Milestones is not a known heading. |
| `Credentials.OpensIff` | apps/connector-server/src/crypto.ts:115-183 | A wrap opens under exactly its own label and secret, on the instances that hold its pepper, to the key it wraps, and says whether the pepper was the previous one. |
| `Credentials.CredentialStorage.EnsureAccountDekWrap` | apps/connector-server/src/storage.ts:431-439 | The first wrap written wins, and every caller gets the winner; an unknown account is refused. |
| `Credentials.CredentialStorage.ReplaceAccountDekWrap` | apps/connector-server/src/storage.ts:445-447 | Replaces only the wrap that was read. |
| `Credentials.CredentialStorage.ConsumePairingCode` | apps/connector-server/src/storage.ts:474-488 | A presented pairing code and all expired ones go; the row is returned only while it was live. |
| `Credentials.CredentialStorage.ConsumeCode` | apps/connector-server/src/storage.ts:536-542 | A live authorization code is marked and returned, any other refused. |
| `Credentials.CredentialStorage.ConsumeToken` | apps/connector-server/src/storage.ts:557-563 | A live refresh token is deleted and returned, any other refused. |
| `Credentials.CredentialStorage.PutPairingCode` | apps/connector-server/src/storage.ts:470-472 | Stores a pairing code's row under its hash and changes nothing else. |
| `Credentials.CredentialStorage.PutCode` | apps/connector-server/src/storage.ts:525-527 | Stores an authorization code's row, not consumed, and changes nothing else. |
| `Credentials.CredentialStorage.PutToken` | apps/connector-server/src/storage.ts:544-546 | Stores a token's row under its hash and changes nothing else. |
| `Credentials.CredentialStorage.DeleteToken` | apps/connector-server/src/storage.ts:553-555 | Deletes one token. |
| `Credentials.CredentialStorage.UpsertAccount` | apps/connector-server/src/storage.ts:423-425 | Creates the account without a key when it is unknown, else changes nothing. |
| `CredentialRuns.StepKeeps` | apps/connector-server/src/provider.ts:195-336 | Every step of every interleaved request keeps every stored wrap opening to its account's one key under the secret its row is keyed by, and every account at the root of its chain. |
| `CredentialRuns.CreateKeeps` | apps/connector-server/src/create-server.ts:271-286 | Racing first writers end up with one key. |
| `CredentialRuns.TokensInCustody` | apps/connector-server/src/provider.ts:195-336 | In every state of every run a token's wrap opens under the token to its account's key, and its account is the one its chain started from. |
| `CredentialRuns.KeyStays` | apps/connector-server/src/storage.ts:431-447 | An account's key never changes once it has one. |
| `CredentialRuns.ServedWithItsKey` | apps/connector-server/src/create-server.ts:690-712 | A request is served with its account's one key. |
| `CredentialRuns.TakenOnce` | apps/connector-server/src/provider.ts:234-302 | An authorization code or a refresh token is taken at most once in any run. |
| `CredentialAnswers.PairingTakenIff` | apps/connector-server/src/storage.ts:474-488 | A presented pairing code yields a row if and only if it stands and its time is not up; it is gone then, with every expired code and no other. |
| `CredentialAnswers.PairingTakenOnce` | apps/connector-server/src/create-server.ts:574-653 | Over any run a pairing code connects one app: between two consents that get its row a pairing stored it anew. |
| `CredentialAnswers.PairingStays` | apps/connector-server/src/create-server.ts:487-521 | A stored pairing code stays as stored until it is presented, stored anew, or presented codes are looked up after its time. |
| `CredentialAnswers.ChainGoesOnIff` | apps/connector-server/src/provider.ts:195-302 | In every state of every run a consent, an exchange and a refresh go on if and only if the presented secret is live, issued to the client that presents it, openable on this instance, and nothing else refuses. |
| `CredentialAnswers.ConsentGoesOnIff` | apps/connector-server/src/create-server.ts:617-647 | A consent goes on with the account of its pairing code and that account's key, and in no other case. |
| `CredentialAnswers.ExchangeGoesOnIff` | apps/connector-server/src/provider.ts:234-267 | An exchange goes on for the client, account and key the code was issued for, and in no other case. |
| `CredentialAnswers.RefreshGoesOnIff` | apps/connector-server/src/provider.ts:270-302 | So does a refresh, for its token. |
| `CredentialAnswers.BearerServedIff` | apps/connector-server/src/provider.ts:339-361 | A request is served as the token's account, with its key, if and only if the token is a stored access token this instance can open and nothing else refuses. |
| `CredentialAnswers.ResolveGoesOn` | apps/connector-server/src/create-server.ts:271-286 | Reading an account's wrap goes on with its key when this instance can open it, by way of a move to the current pepper when it is under the previous one; without a wrap it makes a key. |
| `CredentialAnswers.CreateGoesOn` | apps/connector-server/src/create-server.ts:282-285 | Making a key goes on with the key of the writer that won, when this instance can open its wrap. |
| `CredentialAnswers.PairedFor` | apps/connector-server/src/create-server.ts:487-521 | A stored pairing code is live, until its time, on the instances that hold its pepper. |
| `CredentialAnswers.MintedFor` | apps/connector-server/src/provider.ts:195-219 | A minted code is live, until its time, for the client that asked. |
| `CredentialAnswers.IssuedFor` | apps/connector-server/src/provider.ts:304-336 | A stored refresh token is live, until its time, for the client that asked; an access token never serves a refresh. |
| `CredentialRuns.RotationOpensAll` | apps/connector-server/src/crypto.ts:170-183 | Through one pepper rotation, with instances on either side of it running at once, every stored credential opens on the instances that hold both peppers. |
| `CredentialRuns.SecondRotation` | apps/connector-server/src/create-server.ts:271-286 | Over any run of the first rotation, an account opens after a second one if and only if some request with the account's own token, on a new instance, moved or created its wrap during the first. |
| `CredentialRuns.UnusedAccountLeftBehind` | apps/connector-server/src/create-server.ts:271-286 | A concrete one: an account nobody used opens through the first rotation and not after the second. |
| `Entitlement.EntitlementTables.BindEntitlementNonce` | apps/connector-server/src/storage.ts:462-468 | A held nonce answers for its holder alone until it expires; otherwise expired ones go and it is bound. |
| `Entitlement.EntitlementTables.StampEntitlement` | apps/connector-server/src/create-server.ts:224-242 | Stamps the account exactly when the attestation verifies and its nonce is or becomes the account's. |
| `Entitlement.WindowEnds` | apps/sync-server/src/entitlement.ts:19-76 | No attestation of a window outlives the instant up to which its bound nonce is kept. |
| `Entitlement.OneAccountPerWindow` | apps/sync-server/src/entitlement.ts:63-76 | Over any run one subscriber's attestations minted in one 24-hour window stamp at most one account; the two services' clocks need not agree. |
| `Entitlement.StampedIff` | apps/connector-server/src/create-server.ts:224-242 | Over any run an attestation stamps the account that presents it if and only if it verifies and no earlier stamp of its subscriber and window went to another account. |
| `Entitlement.VerifiesIff` | apps/connector-server/src/entitlement.ts:64 | A minted attestation verifies exactly for the hour after it was minted. |
| `Entitlement.AtMostNineAccounts` | apps/connector-server/src/entitlement.ts:26-33 | With agreeing clocks at most nine accounts hold a live seven-day stamp from one subscriber at any instant. |
| `Entitlement.EntitledIffLive` | apps/connector-server/src/storage.ts:449-458 | An account is entitled at an instant exactly when it was given a stamp that is still live. |
| `RateLimiter.Limiter.FirstLive` | apps/connector-server/src/rate-limit.ts:43-46 | The loop counts exactly the leading expired stamps. |
| `RateLimiter.Limiter.CheckKey` | apps/connector-server/src/rate-limit.ts:38-61 | The in-place pruning, eviction, push and re-insertion leave exactly the specified map and answer. |
| `RateRuns.StepKeeps` | apps/connector-server/src/rate-limit.ts:38-61 | Every check keeps the stored stamps a suffix of the admitted calls, any limit + 1 of which span a window, and the keys in order of their last admitted call. |
| `RateRuns.WindowHoldsAtMostLimit` | apps/connector-server/src/rate-limit.ts:38-61 | Any window holds at most the limit of admitted calls of a key not evicted in it. |
| `RateRuns.MapStaysBounded` | apps/connector-server/src/rate-limit.ts:47-51 | The map never holds more keys than the cap. |
| `RateRuns.StalestIsEvicted` | apps/connector-server/src/rate-limit.ts:57-69 | The evicted key is the one whose last admitted call is the oldest. |
| `RateRuns.WaitingIsEnough` | apps/connector-server/src/rate-limit.ts:52-55 | After the seconds a refusal names, the next call is admitted if no other call of the key was admitted meanwhile. |
| `RateRuns.AdmittedIff` | apps/connector-server/src/rate-limit.ts:38-61 | Over any run a call is admitted if and only if the key's admitted call `limit` back, since its last eviction, has left the window. |
| `RateRuns.SoonerIsRefused` | apps/connector-server/src/rate-limit.ts:52-55 | A call made a whole second sooner than told is still refused, when more than a second was named and the key was not evicted. |

## Left out

- ProjectProtocol.AckKeeps: takes the runs' assumption that an ack renames a row only onto an id of its own scope and kind, which the code leaves to the client.
- SyncStorage.InMemoryStorage.PruneUploads: leaves the order of superseded uploads with equal age stamps open, because insertion order of the map is not modelled there.
- MilestoneGate.AssertSectionKeepsPasses: covers the Milestones sections only; the lines outside them (`assertNothingMilestoneLikeAdded`, lookalike headings, checkboxes) are not modelled.
- The SQL of both neon-storage files, HTTP routing, CORS, body limits, health pages, Stripe, DNS and client metadata fetching.
- Cryptography itself: row encryption, HMAC, sha256 and key derivation are symbolic; rows that do not decrypt are not modelled.
- Unicode folding and lookalike detection (`milestoneSkeleton`, `CHECKBOX`), and `parseMilestoneProposals`, which turns agent text into proposals.
- The wording of refusals: a refusal is one value per kind the callers tell apart.
- Strings are sequences of characters; JavaScript counts UTF-16 units, so lengths of text outside the basic plane differ. Regular expressions are modelled as recogniser functions.
- The two-level Map of rows per account is a map of maps, and the counter key joined by a NUL is a pair; aliasing of stored records is not modelled, since the code returns copies.
- `putEntry`, operator seeding, `putRawClientRow`, `purgeLegacyPlaintext`: maintenance and test writes outside the protocols; `createdAt`, `entryHash` and the audit ledger carry no decision.
- The OAuth client records, PKCE challenges, redirect matching and audience checks are refusals a step may choose; the `consumed` field of a pairing code, which is never true, and token rows from before key wraps are not modelled.
- `stampEntitlement` binds and stamps in two storage calls; they are one step here, since nothing between them reads either table for that account.
- `isProjectDraft`, the draft line, `project_list`, `project_get` and the search tools, which only read.
