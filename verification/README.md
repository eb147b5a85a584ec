# Mindwall verification model

Mindwall is an email proxy. It pulls messages from an upstream IMAP folder into its own tables, scores and quarantines them, serves the result through a read-only IMAP server, and accepts outgoing mail over SMTP. This project models those five parts and proves what they keep over whole runs and whole conversations.

- `MailboxSync`, `MailboxSyncLaws`, `SyncOutcomeLaws`, `MailboxGapLaws`: the sync service over the item table and the checkpoints. Every run, with every failure it may meet, is a step; the laws range over sequences of runs, and the gap laws also over an upstream folder that evolves and answers the searches it is sent.
- `VirtualMailbox`: the two virtual folders built from the item table, and how their listings evolve.
- `LineStream`, `SmtpData`, `SmtpConnection`, `SmtpConversationLaws`: the SMTP submission connection. A reference server keeps only the history of exchanges; the connection with its mutable fields gives the same replies and deliveries for every client stream. The conversation laws tie its replies and deliveries to the commands and octets the client sent, up to whole submissions.
- `ImapSets`, `ImapSetLaws`, `ImapArgs`, `ImapConnection`, `ImapConversationLaws`, `ImapAnswerLaws`: the IMAP connection, in the same style, with its set parsers and its tokenizer.
- `HtmlText`, `HtmlLaws`, `MimeWalk`, `Urls`: message normalisation against recursive and one-pass meanings.
- `Review`, `ReviewLaws`: quarantine review and alerts over one append-only audit log.
- `Policy`: the score, the verdict and the folder a message lands in.
- `Text`, `Options`: string operations and optional values shared by the rest.

An object whose methods change its fields is a class with those fields. Each of its methods is tied to a specification function of the old state (or, for the two connections, to the history), and the laws are lemmas about that specification. What a network peer, a library or a database decides (whether a fetch fails, how base64 decodes, whether credentials are valid, which URLs parse, which messages the model answers) is an input, unconstrained unless a lemma says otherwise. A single writer is assumed. Floats are reals.

Where the code and its documentation disagree, the code is modelled, and the exact condition under which it does what is promised is proved:

- After a UIDVALIDITY change the documentation asks for a sync from scratch (`app/mailboxes/sync_models.py:79-81`). The mapping lookup ignores UIDVALIDITY, so a UID of the batch gets a row exactly when its folder has no row for that UID yet: `FreshRowIffUnmapped`, with the lost message of `ReusedUidIsLost`. The same lemma says that a UID recorded as failed is never retried.
- The search for new mail is meant to return every UID above the checkpoint (`app/proxies/imap/client.py:331-341`). It sends `UID SEARCH min:*`; as a search key that set names message sequence numbers, and only the reply holds UIDs (sections 6.4.4 and 6.4.8 of RFC 3501). It overlooks nothing exactly when at most one message lies above the checkpoint or every UID up to the checkpoint is still in the folder: `SearchReachesAllIff`. Otherwise new mail can be passed without a row: `LateUidIsLost` is a concrete loss, `PassedUnmappedIff` says which UIDs one run loses, `NoGapOverRuns` and `BacklogDrains` say when any sequence of runs loses none.
- A UID hit by the catch-all handler is not recorded. One without a row is passed exactly when the same run settles a larger UID of its batch: `CrashedUidIsPassedIff`, with `CrashedUidIsLost` as input. What is passed without a row stays without one for as long as the UIDVALIDITY lasts: `PassedForGood`.
- A cold sync is described as starting from the beginning (`app/mailboxes/sync_service.py:275-276`). It covers the folder exactly when the folder has no more messages than one batch: `ColdRunCoversFolderIff`, with `ColdRunLosesOldest` as input.
- A set range written backwards, or `n:*` with n above the maximum, is read as empty. `ElementReadRight` says exactly when that makes a difference for one element, `UidFetchMeansSet` and `FetchMeansSet` for a whole set; `BackwardRangeFetchesNothing` is a concrete loss.
- Every command is meant to be completed by a tagged line. The parser of sets raises on a range whose bound is neither `*` nor a number, nothing is sent, and the connection ends. This happens exactly when a logged-in client asks a non-empty selected mailbox for a set with such a range: `CommandCompleted`, `LineCompleted`; `MalformedFetchUnanswered` shows it for `FETCH 1:x FLAGS`.
- The DATA collector is described as reading up to the terminator (`app/proxies/smtp/server.py:248`). It stops at the first line that exceeds the limit, and what follows is read as commands: `OversizeDataLeaves`. It leaves exactly what follows the terminator if and only if the message fits: `DataEndsInStepIff`.
- A further finding can lower the score, and so soften a verdict: `MildFindingSoftens`. It does not exactly when it is at least as severe as the mean of the others: `RawScoreGrowsIff`.
- A skip tag that is never closed, as `meta` and `link` never are, hides the rest of the document, wherever it stands. `UnclosedTagKeepsRest` says for every document what is lost and when nothing is; in `HeadMetaHidesBody` a `meta` in the head hides the whole page.

## Model

| member | source | states |
|---|---|---|
| MailboxSync.SyncService.SyncMailboxFolder | app/mailboxes/sync_service.py:160-474 | a run leaves exactly the tables and the summary of `Run`, on every path: aborted, cold, warm, after a UIDVALIDITY change |
| MailboxSync.SyncService.SyncUid | app/mailboxes/sync_service.py:319-437 | one UID: skipped, recorded as failed, synced, or caught by the catch-all, with its row, checkpoint and counters |
| MailboxSync.SyncService.UidAlreadyMapped | app/mailboxes/sync_service.py:117-131 | true exactly when the folder has a row for the UID, under any UIDVALIDITY |
| MailboxSync.SyncService.RecordFailedItem | app/mailboxes/sync_service.py:510-532 | one INGESTION_ERROR row is appended with the next virtual UID |
| MailboxSync.SyncService.Abort | app/mailboxes/sync_service.py:494-507 | the checkpoint row turns to ERROR and keeps its UIDs; the summary tells authentication from connection failure |
| MailboxSync.SyncService.Checkpoint | app/mailboxes/sync_service.py:447-460 | the checkpoint only moves up, and the status follows the errors and successes of the run |
| MailboxSync.SyncService.GetSyncState | app/mailboxes/sync_service.py:75-96 | an absent checkpoint row is created idle and unset; a present one is returned |
| MailboxSync.Sorted | app/proxies/imap/client.py:247-287 | the search reply sorted, with the same members |
| MailboxGapLaws.WarmBatch | app/proxies/imap/client.py:331-355 | the batch of a warm run is a prefix of the UIDs above the checkpoint that `min:*`, read as sequence numbers, asks for; it is not empty when there is one |
| MailboxSyncLaws.RunKeeps | app/mailboxes/sync_service.py:117-152 | any run keeps rows unique per (profile, folder, UID), virtual UIDs 1..n in insertion order, every set checkpoint on a row and not falling within a UIDVALIDITY, other folders' checkpoints, and new + skipped + errors = size of the batch |
| MailboxSyncLaws.BookkeepingOverRuns | app/mailboxes/sync_service.py:160-474 | the same over any sequence of runs, aborted ones and crashes included; rows are never changed or removed |
| MailboxSyncLaws.ReachableIsBookkept | app/mailboxes/sync_models.py:128-135 | every table reachable from empty ones is bookkept |
| MailboxSyncLaws.MaxIsCount | app/mailboxes/sync_service.py:134-152 | allocating maximum + 1 numbers a profile's rows densely |
| MailboxSyncLaws.LoopKeeps | app/mailboxes/sync_service.py:317-437 | what the loop does to a whole batch: what it maps, how far the checkpoint may go, how the counters add up |
| MailboxSyncLaws.FreshRowIffUnmapped | app/mailboxes/sync_service.py:321-325 | a UID of the batch gets a new row exactly when it has none under any UIDVALIDITY and no catch-all error hits it |
| MailboxSyncLaws.RunMaps | app/mailboxes/sync_service.py:317-448 | after a completed run exactly the UIDs mapped before and the uncrashed ones of the batch have a row, and the checkpoint has reached a UID exactly when one at or above it was skipped or synced |
| MailboxSyncLaws.CrashedUidIsPassedIff | app/mailboxes/sync_service.py:427-448 | a UID the catch-all handler swallowed ends below the checkpoint without a row exactly when it had none and a larger UID of the batch is skipped or synced |
| MailboxGapLaws.CrashedUidIsLost | app/mailboxes/sync_service.py:427-448 | of two UIDs the first crashes: it is passed without a row |
| SyncOutcomeLaws.RowsTellOutcomes | app/mailboxes/sync_service.py:328-417 | every row a run adds is for a UID of its batch and tells its outcome: QUARANTINED exactly for the verdicts quarantine, reject and escalate and for a soft hold with the setting on, HIDDEN exactly for a soft hold with it off, VISIBLE for allow, banner or a raised analysis, INGESTION_ERROR without a message exactly when fetch or ingestion failed |
| SyncOutcomeLaws.FreshRowTellsOutcome | app/mailboxes/sync_service.py:319-417 | a new UID of the batch that does not crash gets exactly one row, which tells its outcome |
| SyncOutcomeLaws.SoftHoldIsHidden | app/mailboxes/sync_service.py:482-491 | a soft hold under the default setting is synced as HIDDEN |
| SyncOutcomeLaws.RunCounts | app/mailboxes/sync_service.py:317-437 | new, skipped and errors count the fates of the positions of the batch, told from the rows before the run; quarantined counts the synced messages, and those whose row crashed, that a verdict held back |
| SyncOutcomeLaws.CompletedRow | app/mailboxes/sync_service.py:447-460 | a completed run leaves its folder idle without errors, partial with errors and new messages, in error with errors alone, with the count of new messages and the UIDVALIDITY |
| SyncOutcomeLaws.AbortedRow | app/mailboxes/sync_service.py:494-507 | a run completes exactly when it connects, selects and is not raised at by a search it needs; otherwise it leaves no rows, an error status and its checkpoint, and tells bad credentials from a bad connection |
| SyncOutcomeLaws.FirstRunIsCold | app/mailboxes/sync_service.py:75-96 | a folder without a checkpoint row starts idle and from nothing |
| SyncOutcomeLaws.BatchLength | app/mailboxes/sync_service.py:291-304 | a batch is the last (cold) or first (warm) so many UIDs found, also for a batch size of 0 or below |
| MailboxSyncLaws.PassedForGood | app/mailboxes/sync_service.py:295-304 | over any runs of any folders while the UIDVALIDITY stays, a UID at or below the checkpoint is never chosen again and gets no row it has not |
| MailboxGapLaws.ReusedUidIsLost | app/mailboxes/sync_service.py:275-286 | concrete tables on which a UID reused after a UIDVALIDITY change is skipped |
| MailboxGapLaws.ColdRunCoversFolderIff | app/mailboxes/sync_service.py:291-294 | a cold run takes in the whole folder exactly when it fits one batch |
| MailboxGapLaws.ColdRunLosesOldest | app/mailboxes/sync_service.py:291-294 | a cold run with room for one UID takes the last of two and passes the first |
| MailboxGapLaws.ColdBatch | app/mailboxes/sync_service.py:291-294 | a cold batch holds every UID of the folder from its first one on |
| MailboxGapLaws.SearchReachesAllIff | app/proxies/imap/client.py:345-355 | for every folder and checkpoint: the search overlooks no UID above the checkpoint exactly when at most one lies there or every UID up to the checkpoint is still in the folder |
| MailboxGapLaws.LateUidIsLost | app/mailboxes/sync_service.py:295-304 | on folder [2] and then [2, 3, 4], a legal evolution, two clean runs leave the checkpoint at 4 and UID 3 without a row |
| MailboxGapLaws.PassedUnmappedIff | app/mailboxes/sync_service.py:291-448 | of the UIDs a run is responsible for, it passes exactly those without a row that are overlooked or crash while it settles one at or above them |
| MailboxGapLaws.NoGapStep | app/mailboxes/sync_service.py:291-304 | while the folder only deletes or appends larger UIDs within a UIDVALIDITY, one run keeps the no-gap invariant exactly when nothing slips through it |
| MailboxGapLaws.NoGapOverRuns | app/mailboxes/sync_service.py:319-448 | over any runs, interleaved with runs of other folders, aborts, catch-all errors and UIDVALIDITY changes, a gap never opens exactly when nothing ever slips |
| MailboxGapLaws.NoGapFromScratch | app/mailboxes/sync_service.py:319-448 | from empty tables, when each warm run meets at most one new message or a folder with all UIDs up to the checkpoint, and no catch-all error, every UID from the latest cold batch up to the checkpoint has a row |
| MailboxGapLaws.DrainStep | app/mailboxes/sync_service.py:291-448 | whatever its search overlooks, a run on a non-empty backlog strictly lowers (UIDs above the checkpoint) + (those without a row); what it passes without a row is what slips |
| MailboxGapLaws.BacklogDrains | app/mailboxes/sync_service.py:291-448 | within that many runs nothing is left above the checkpoint, even if whole batches fail to fetch, and a UID above the starting checkpoint has a row exactly when it never slipped |
| MailboxGapLaws.SafeBacklogDrains | app/mailboxes/sync_service.py:291-448 | when every new message but the last has a sequence number above the checkpoint and all but the last two have it as UID, every UID above the starting checkpoint has a row in the end, for any batch sizes |
| MailboxGapLaws.NeverLosesIffSafe | app/mailboxes/sync_service.py:291-448 | that folder condition is exact: no draining runs lose a UID if and only if it holds, for a folder whose new UIDs have no rows yet |
| VirtualMailbox.SelectMailbox | app/proxies/imap/mailbox.py:133-169 | SELECT's mailbox: the profile's matching rows in order, numbered, with the folder's UIDVALIDITY |
| VirtualMailbox.BuildImapMessages | app/proxies/imap/mailbox.py:218-268 | message k is row k with sequence number k + 1 and its virtual UID, or its id when that is missing |
| VirtualMailbox.FoldersHaveOwnValidity | app/proxies/imap/mailbox.py:188-198 | two folders share a UIDVALIDITY exactly when they have the same name and their profile ids differ by a multiple of 2^30 |
| ImapAnswerLaws.ValidityFormula | app/proxies/imap/mailbox.py:188-198 | the value itself, for ids below the wrap |
| ImapAnswerLaws.UidNextMeaning | app/proxies/imap/mailbox.py:91-96 | one past the last UID, 1 when there is none |
| ImapAnswerLaws.MessageUid | app/proxies/imap/mailbox.py:236-266 | over synced tables a message carries the virtual UID of its row and its position |
| VirtualMailbox.LookupsInverse | app/proxies/imap/mailbox.py:98-103 | lookup by UID finds exactly the messages of a mailbox with ascending UIDs |
| VirtualMailbox.ByUidInvertsBySeq | app/proxies/imap/mailbox.py:98-109 | the lookups by UID and by sequence number are inverse to each other |
| VirtualMailbox.SelectIsMatching | app/proxies/imap/mailbox.py:201-215 | on synced tables ordering by virtual UID is insertion order, and no virtual UID is missing |
| VirtualMailbox.OrderBySorts | app/proxies/imap/mailbox.py:201-215 | on any table the loaded rows are the matching ones, ascending by virtual UID with missing ones last and then by id |
| VirtualMailbox.ExtensionGrowsFolder | app/proxies/imap/mailbox.py:91-96 | appending rows leaves the earlier listing a prefix; new UIDs are at least the earlier UIDNEXT; UIDs ascend and numbers are positions |
| VirtualMailbox.FoldersOnlyGrow | app/proxies/imap/mailbox.py:133-169 | the same across any further sync runs, with UIDVALIDITY unchanged |
| VirtualMailbox.FoldersPartition | app/proxies/imap/mailbox.py:42-44 | INBOX and Mindwall/Quarantine are disjoint and together serve exactly the VISIBLE, QUARANTINED and HIDDEN rows |
| LineStream.LineReader.ReadLine | app/proxies/smtp/server.py:132-146 | one line without its ending; none at the end of the stream or past the limit |
| SmtpConversationLaws.NextLineReads | app/proxies/smtp/server.py:132-146 | a line of at most 8192 octets is read back without its ending and nothing behind it is touched |
| SmtpConversationLaws.OverlongLineEnds | app/proxies/smtp/server.py:132-146 | a longer line, or the end of the stream, ends the conversation |
| SmtpData.CollectData | app/proxies/smtp/server.py:247-279 | the loop gives the message and leaves the stream as `Collect` does |
| SmtpData.CollectMeaning | app/proxies/smtp/server.py:247-279 | for every stream the result is the unstuffed body when the stream is terminated and the body fits, and none otherwise |
| SmtpData.CollectLeaves | app/proxies/smtp/server.py:265-266 | on success exactly the bytes after the terminator line are left |
| SmtpData.DataRoundTrip | app/proxies/smtp/server.py:247-279 | reading a stuffed message, the terminator and any further bytes gives back the message and leaves those bytes, exactly when its size is within the limit |
| SmtpData.OversizeLeaves | app/proxies/smtp/server.py:265-278 | for every stream whose body is over the limit, reading stops behind the first line that exceeds it; the rest of the body is still ahead |
| SmtpData.UnterminatedLeavesNothing | app/proxies/smtp/server.py:263-264 | a stream that ends before its terminator is read to its end when its body fits |
| SmtpData.OversizeDataLeaves | app/proxies/smtp/server.py:265-278 | of a stuffed message over the limit the lines behind the first one that exceeds it are left, then the terminator and the further bytes |
| SmtpData.DataEndsInStepIff | app/proxies/smtp/server.py:247-279 | exactly the further bytes are left if and only if the message is within the limit |
| SmtpConnection.BracketedAddress | app/proxies/smtp/server.py:286-297 | an address in angle brackets is read back |
| SmtpConnection.CommandLine | app/proxies/smtp/server.py:171-177 | for every verb, in any case, verb and argument are read back from their line, the argument stripped; so is a verb alone |
| SmtpConnection.EnvelopeLine | app/proxies/smtp/server.py:384-403 | a MAIL or RCPT line names the address between its angle brackets |
| SmtpConversationLaws.Verbs | app/proxies/smtp/server.py:311-446 | the eight verbs other than AUTH lead to their commands |
| SmtpConversationLaws.UnknownVerb | app/proxies/smtp/server.py:448-449 | any other verb is unknown |
| SmtpConversationLaws.AuthVerb | app/proxies/smtp/server.py:339-372 | the mechanism of AUTH, in any case, with the initial response of PLAIN |
| SmtpConversationLaws.PlainAddress | app/proxies/smtp/server.py:286-297 | without angle brackets the address is what follows the colon, or all there is |
| SmtpConnection.Connection.constructor | app/proxies/smtp/server.py:96-121 | a new connection greets nobody, has no session and no envelope |
| SmtpConnection.Connection.ResetEnvelope | app/proxies/smtp/server.py:158-165 | the envelope is cleared and the state falls back to AUTH or EHLO by the session |
| SmtpConnection.Connection.HandleAuthPlain | app/proxies/smtp/server.py:183-212 | AUTH PLAIN sets the session exactly on valid credentials, and reads one more line only without an initial response |
| SmtpConnection.Connection.HandleAuthLogin | app/proxies/smtp/server.py:214-241 | AUTH LOGIN sets the session exactly on valid credentials, and reads the second line only after a readable first |
| SmtpConnection.Connection.HandleHello | app/proxies/smtp/server.py:324-337 | a greeting ends an open transaction and keeps the session |
| SmtpConnection.Connection.HandleAuth | app/proxies/smtp/server.py:339-372 | AUTH is refused before a greeting and after a success, as the history says |
| SmtpConnection.Connection.HandleTransaction | app/proxies/smtp/server.py:379-403 | RSET, MAIL and RCPT are answered as the history says: MAIL with no transaction open, RCPT with one open |
| SmtpConnection.Connection.HandleData | app/proxies/smtp/server.py:405-446 | DATA needs a recipient; what is delivered is the open envelope; the sender is known at the assertion of line 417 |
| SmtpConnection.Connection.HandlePlainly | app/proxies/smtp/server.py:316-322 | QUIT, NOOP, unknown commands and refusals before a login leave everything alone |
| SmtpConnection.Connection.Dispatch | app/proxies/smtp/server.py:309-449 | one pass of the loop adds the reference's exchange, and the fields still say what the history says: no session exactly in GREETING and EHLO, an open transaction exactly in MAIL and RCPT |
| SmtpConnection.Connection.Handle | app/proxies/smtp/server.py:303-455 | for every client stream the conversation is the reference server's |
| SmtpConnection.EnvelopeMeaning | app/proxies/smtp/server.py:384-403 | a transaction is open exactly when an accepted MAIL is followed by nothing that ends it; its recipients are the RCPTs accepted since, in order |
| SmtpConnection.SessionMeaning | app/proxies/smtp/server.py:343-345 | the session is that of the first successful AUTH |
| SmtpConnection.OneSession | app/proxies/smtp/server.py:339-372 | at most one AUTH succeeds in a conversation |
| SmtpConnection.DeliveryMatchesHistory | app/proxies/smtp/server.py:405-446 | in every conversation each delivery carries the sender of the last accepted MAIL and precisely the recipients accepted since, at least one, with no RSET, greeting or DATA in between, under the one session authenticated before |
| SmtpConversationLaws.EnvelopeAccepted | app/proxies/smtp/server.py:384-403 | MAIL is accepted exactly from a logged-in client with no transaction open, RCPT exactly with one open, each with the address the command names |
| SmtpConversationLaws.TransactionEnds | app/proxies/smtp/server.py:314-337 | EHLO, HELO, and RSET of a logged-in client, end any transaction; NOOP, QUIT, unknown and refused commands change nothing |
| SmtpConversationLaws.AuthPlainSucceedsIff | app/proxies/smtp/server.py:183-212 | AUTH PLAIN gives a session exactly after a greeting, before any success, on credentials that decode and are valid |
| SmtpConversationLaws.AuthPlainPrompted | app/proxies/smtp/server.py:189-212 | without an initial response it reads one more line for it |
| SmtpConversationLaws.AuthLoginPrompted | app/proxies/smtp/server.py:214-241 | AUTH LOGIN reads the user name and then the password |
| SmtpConversationLaws.AuthRefused | app/proxies/smtp/server.py:339-372 | AUTH before a greeting, after a success or with another mechanism is refused and reads nothing |
| SmtpConversationLaws.UnreadableUsername | app/proxies/smtp/server.py:214-241 | a user name that does not decode fails before the password is asked for |
| SmtpConversationLaws.NoCredentials | app/proxies/smtp/server.py:183-241 | a client that hangs up at the prompt fails |
| SmtpConversationLaws.DeliveryAsNamed | app/proxies/smtp/server.py:384-424 | in every conversation each delivery goes from the address the last accepted MAIL command named to precisely the addresses of all RCPT commands sent since, in order, with no EHLO, HELO, RSET or other ended DATA in between |
| SmtpConversationLaws.DeliveredIsSent | app/proxies/smtp/server.py:405-424 | in every conversation the message of a delivery is what followed the line of its DATA command in the stream, up to the terminator, unstuffed and within the limit |
| SmtpConversationLaws.DataDelivers | app/proxies/smtp/server.py:405-446 | with recipients named, DATA and a stuffed message within the limit deliver exactly that message; the reply tells what became of it |
| SmtpConversationLaws.DataRefused | app/proxies/smtp/server.py:405-424 | exactly when DATA is refused, before or after reading, and what that leaves |
| SmtpConversationLaws.SubmissionDelivers | app/proxies/smtp/server.py:303-455 | end to end: a logged-in client that names any sender and recipients and sends any message within the limit has exactly that delivered, and the conversation goes on with what follows |
| SmtpConversationLaws.QuitEnds | app/proxies/smtp/server.py:316-318 | QUIT is answered and ends the conversation |
| ImapSets.ParseUidSet | app/proxies/imap/server.py:568-598 | the parsed set, or the ValueError of a malformed range |
| ImapSets.ParseSeqSet | app/proxies/imap/server.py:601-627 | the parsed sequence set, or the ValueError of a malformed range |
| ImapSets.ElementReadRight | app/proxies/imap/server.py:582-591 | an element is read as section 9 of RFC 3501 means it exactly when it is no backward range, or nothing in use lies inside it |
| ImapSetLaws.UidFetchOfPrintedSet | app/proxies/imap/server.py:441-464 | UID FETCH of any printed set returns exactly the messages some element takes, once each, in ascending sequence order |
| ImapSetLaws.FetchOfPrintedSet | app/proxies/imap/server.py:470-488 | the same for FETCH and sequence numbers |
| ImapSetLaws.UidFetchMeansSet | app/proxies/imap/server.py:568-598 | UID FETCH of a printed set returns exactly the messages the set means if and only if each UID inside a backward range is taken by another element |
| ImapSetLaws.FetchMeansSet | app/proxies/imap/server.py:601-627 | the same for FETCH and sequence numbers |
| ImapSetLaws.BackwardRangeFetchesNothing | app/proxies/imap/server.py:609-617 | of five messages the set 4:2 means three and FETCH returns none |
| ImapSetLaws.ForwardSetsReadRight | app/proxies/imap/server.py:582-591 | without backward ranges what the server takes is what the set means |
| ImapSetLaws.SeqSetInRange | app/proxies/imap/server.py:609-625 | whatever the text, parsed sequence numbers lie in 1..n |
| ImapSetLaws.UidFetchRaisesIff | app/proxies/imap/server.py:579-598 | UID FETCH raises exactly on a non-empty mailbox and a set with a range whose bound is neither * nor a number |
| ImapSetLaws.FetchRaisesIff | app/proxies/imap/server.py:609-627 | FETCH raises on exactly the same sets |
| ImapSetLaws.SearchRaisesIff | app/proxies/imap/server.py:540-560 | SEARCH raises exactly on a non-empty mailbox and a UID criterion with such a set |
| ImapSetLaws.SearchUidCriteria | app/proxies/imap/server.py:540-560 | SEARCH UID s finds the UIDs that UID FETCH s fetches |
| ImapSetLaws.SearchThenFetchIsUidFetch | app/proxies/imap/server.py:406-488 | fetching the numbers SEARCH UID s returns selects exactly the messages of UID FETCH s, and both raise on the same sets |
| ImapAnswerLaws.FetchAnswerLists | app/proxies/imap/server.py:470-488 | FETCH of a printed set answers one line with sequence number and UID for each message some element takes, in ascending order, and no other |
| ImapAnswerLaws.UidFetchAnswerLists | app/proxies/imap/server.py:441-464 | the same for UID FETCH |
| ImapAnswerLaws.SearchFindsAll | app/proxies/imap/server.py:540-560 | criteria that are no UID set find every message, by number for SEARCH and by UID for UID SEARCH |
| ImapAnswerLaws.UidSearchAnswers | app/proxies/imap/server.py:426-435 | UID SEARCH of a UID set answers, ascending, exactly the UIDs UID FETCH fetches |
| ImapAnswerLaws.SignedNumbers | app/proxies/imap/server.py:582-596 | a sign of a number is read |
| ImapAnswerLaws.UnreadableSingle | app/proxies/imap/server.py:592-596 | a single that is no number is passed over |
| ImapArgs.SplitImapArgs | app/proxies/imap/server.py:767-795 | the nested index loops end on every input and give the tokens |
| ImapArgs.ParseLoginArgs | app/proxies/imap/server.py:755-764 | the first two tokens, or none |
| ImapArgs.TokensOfRendered | app/proxies/imap/server.py:767-795 | tokenizing undoes rendering, for every list of quoted strings and atoms |
| ImapArgs.AdjacentTokens | app/proxies/imap/server.py:767-795 | an atom ends at a quote, and a new token starts behind a closing quote |
| ImapArgs.UnclosedQuote | app/proxies/imap/server.py:773-784 | a quote that is never closed ends with the text; a last backslash stands for itself |
| ImapArgs.LoginReadsQuotedCredentials | app/proxies/imap/server.py:755-764 | LOGIN with quoted arguments reads back any user name and password |
| ImapAnswerLaws.Unquoting | app/proxies/imap/server.py:798-804 | names in double quotes are unquoted, others kept |
| ImapConnection.Connection.constructor | app/proxies/imap/server.py:102-121 | a new connection is not authenticated and has no mailbox |
| ImapConnection.Connection.RequireAuth | app/proxies/imap/server.py:494-498 | refuses with NO exactly in NOT_AUTH and LOGOUT |
| ImapConnection.Connection.RequireSelected | app/proxies/imap/server.py:500-506 | refuses with NO or BAD exactly outside SELECTED |
| ImapConnection.Connection.CmdLogin | app/proxies/imap/server.py:254-277 | LOGIN answers as the reference, and only a success sets session and state |
| ImapConnection.Connection.CmdSelect | app/proxies/imap/server.py:293-322 | SELECT answers as the reference; a failure keeps the mailbox selected before |
| ImapConnection.Connection.CmdStatus | app/proxies/imap/server.py:328-365 | STATUS answers the requested items of the named folder and changes nothing |
| ImapConnection.Connection.CmdClose | app/proxies/imap/server.py:371-374 | CLOSE drops the mailbox and returns to AUTH |
| ImapConnection.Connection.CmdUid | app/proxies/imap/server.py:380-400 | UID dispatches to SEARCH and FETCH by UID and refuses the rest |
| ImapConnection.Connection.CmdSearch | app/proxies/imap/server.py:406-420 | SEARCH sends the sequence numbers of the matching messages |
| ImapConnection.Connection.CmdFetch | app/proxies/imap/server.py:441-488 | FETCH sends one line per selected message in mailbox order, or raises before sending |
| ImapConnection.Connection.Execute | app/proxies/imap/server.py:200-231 | one command adds the reference's exchange and lines, and the fields still say what the history says |
| ImapConnection.Connection.Dispatch | app/proxies/imap/server.py:183-231 | one client line: ignored when blank, refused untagged with one word, else executed |
| ImapConnection.Connection.Handle | app/proxies/imap/server.py:127-160 | for every client stream the history and everything sent are the reference server's |
| ImapAnswerLaws.Words | app/proxies/imap/server.py:200-224 | the commands by their names, in any case |
| ImapAnswerLaws.MutatingWords | app/proxies/imap/server.py:513-532 | the sixteen names of commands that would change a mailbox |
| ImapAnswerLaws.LineRead | app/proxies/imap/server.py:183-199 | a line is read as tag, word and arguments |
| ImapAnswerLaws.QueriesWritten | app/proxies/imap/server.py:380-488 | what FETCH, UID FETCH, SEARCH and UID SEARCH ask, from how clients write them |
| ImapAnswerLaws.SelectByName | app/proxies/imap/server.py:293-322 | SELECT and EXAMINE of INBOX open exactly the VISIBLE rows of the profile, of Mindwall/Quarantine exactly the QUARANTINED and HIDDEN ones, in any case of the name, announced with number, UIDVALIDITY and UIDNEXT; any other name is refused without effect |
| ImapAnswerLaws.StatusByName | app/proxies/imap/server.py:328-365 | STATUS answers exactly the requested numbers of the rows the name stands for; any other name is refused |
| ImapAnswerLaws.LoginByCredentials | app/proxies/imap/server.py:254-277 | LOGIN succeeds exactly before any login and with valid credentials, for the session they belong to |
| ImapAnswerLaws.UnreadableArguments | app/proxies/imap/server.py:254-345 | a LOGIN without two tokens and a STATUS that does not split are BAD |
| ImapAnswerLaws.RefusedWithout | app/proxies/imap/server.py:494-506 | what needs a login is NO without one; what needs a mailbox is BAD without one |
| ImapAnswerLaws.ListNamesBoth | app/proxies/imap/server.py:283-287 | LIST names both folders |
| ImapAnswerLaws.CloseCloses | app/proxies/imap/server.py:371-374 | CLOSE drops the selection with OK |
| ImapAnswerLaws.AnsweredAnywhere | app/proxies/imap/server.py:200-231 | the answers that do not depend on the state |
| ImapAnswerLaws.UidSubcommands | app/proxies/imap/server.py:380-400 | UID without a word, FETCH without items and UID with a mutating word are refused |
| ImapAnswerLaws.ConversationEnds | app/proxies/imap/server.py:127-160 | nothing is read after LOGOUT, the end of the stream or a line of more than 8192 octets |
| ImapAnswerLaws.ShortLines | app/proxies/imap/server.py:183-199 | blank lines are ignored, single words refused without a tag |
| ImapConversationLaws.RaisedIff | app/proxies/imap/server.py:380-488 | after any history a command raises if and only if it is a FETCH, SEARCH or UID command by which a logged-in client asks a non-empty selected mailbox for a set with a bad range |
| ImapConversationLaws.CommandCompleted | app/proxies/imap/server.py:200-231 | after any history a command sends untagged lines and then exactly one line with its tag if and only if it does not ask for such a set; otherwise it sends nothing |
| ImapConversationLaws.LineCompleted | app/proxies/imap/server.py:183-231 | the same for every client line with at least two words |
| ImapConversationLaws.FailureEndsConversation | app/proxies/imap/server.py:127-160 | after a line that fails nothing more is sent |
| ImapConversationLaws.MalformedFetchUnanswered | app/proxies/imap/server.py:609-617 | FETCH 1:x FLAGS on any non-empty mailbox is never answered |
| ImapConversationLaws.MutatingLine | app/proxies/imap/server.py:227-229 | a line with a mutating word, in any case, is answered with one tagged NO after any history, without effect |
| ImapConversationLaws.MutationsAreInert | app/proxies/imap/server.py:227-229 | in every conversation all mutating commands are refused with NO, and session, selection and state are those of the conversation without them |
| ImapConversationLaws.AnswersIgnoreMutations | app/proxies/imap/server.py:227-229 | over unchanging tables and credentials every command is answered as if the mutating ones before it had not been sent |
| ImapConversationLaws.EffectOf | app/proxies/imap/server.py:254-374 | only LOGIN logs in, only SELECT of a logged-in client opens a snapshot, of the folder it names, only CLOSE closes; no other command alters the selection |
| ImapConversationLaws.SelectionMeaning | app/proxies/imap/server.py:293-374 | the selected mailbox is that of the last successful SELECT with no CLOSE since |
| ImapConversationLaws.SelectedIsSnapshot | app/proxies/imap/server.py:299-313 | it is the snapshot, taken when it was selected, of the folder that SELECT named, for the session's profile |
| ImapConversationLaws.OneLogin | app/proxies/imap/server.py:254-257 | at most one LOGIN succeeds in a conversation |
| ImapConversationLaws.StateInvariant | app/proxies/imap/server.py:494-506 | SELECTED implies a mailbox and a session, AUTH a session and no mailbox, NOT_AUTH neither |
| ImapConversationLaws.ReadsServeSnapshot | app/proxies/imap/server.py:380-488 | a completed FETCH, UID FETCH, SEARCH or UID SEARCH is answered with exactly the lines the last SELECT's snapshot gives for the set or criterion it asks, whatever happened to the tables since |
| ImapConversationLaws.SelectsOnlyGrow | app/proxies/imap/server.py:293-322 | over synced tables a later SELECT of a folder extends what an earlier one showed, with larger UIDs only |
| HtmlText.TextExtractor.HandleStartTag | app/messages/html_safe.py:41-64 | the effect of a start tag on depth, text and open anchor |
| HtmlText.TextExtractor.HandleEndTag | app/messages/html_safe.py:66-81 | the effect of an end tag, closing an anchor or a skipped element |
| HtmlText.TextExtractor.HandleData | app/messages/html_safe.py:83-88 | data is kept exactly outside skipped elements |
| HtmlText.TextExtractor.GetText | app/messages/html_safe.py:90-97 | the collected text, normalised |
| HtmlText.ExtractionIsMeaning | app/messages/html_safe.py:25-101 | for every document whose skip tags and anchors are closed and whose anchors are not nested, the events yield the recursive visible text and one (href, text) pair per visible anchor, and depth and anchor state return to their start |
| HtmlText.FeedVisible | app/messages/html_safe.py:41-88 | the same from any state outside skipped elements, also under an open anchor |
| HtmlText.FeedSkipped | app/messages/html_safe.py:44-49 | inside a skipped element a document changes nothing |
| HtmlText.UnclosedTagKeepsRest | app/messages/html_safe.py:44-46 | for every document: the collected text followed by the text hidden behind the first unclosed skip tag is the visible text, so nothing is lost exactly when nothing visible follows it; the skip depth counts the tags left open |
| HtmlText.HeadMetaHidesBody | app/messages/html_safe.py:15-17 | a page with a meta tag in its head yields no text at all |
| HtmlText.ExtractText | app/messages/html_safe.py:104-120 | from document to result: the normalised visible text, exactly that of what was collected, and for proper documents the links |
| HtmlLaws.TagsByName | app/messages/html_safe.py:15-22 | which tags are skipped, break lines or are anchors, in any case |
| HtmlLaws.TextOfElement | app/messages/html_safe.py:41-81 | what a skipped, a block and any other element make of their content |
| HtmlLaws.HrefIff | app/messages/html_safe.py:57-63 | an anchor is accepted with exactly its first non-empty href that starts with none of javascript:, data: and vbscript: |
| HtmlLaws.RecordedAreUsable | app/messages/html_safe.py:57-74 | whatever the events, no recorded link is empty or of these schemes |
| HtmlLaws.AnchorsMeaning | app/messages/html_safe.py:57-74 | the links of a proper document are exactly those of its visible anchors with such an href, with their text |
| HtmlLaws.ExtractedLinks | app/messages/html_safe.py:99-101 | both for the events of a document |
| HtmlLaws.DepthNeverNegative | app/messages/html_safe.py:66-71 | whatever the events, stray end tags never take the skip depth below zero |
| HtmlLaws.AnchorTags | app/messages/html_safe.py:56-77 | an end tag of an anchor records the open link, also inside a skipped element; a start tag outside one replaces it |
| HtmlLaws.BlockEnds | app/messages/html_safe.py:79-81 | an end tag of a block breaks the line exactly outside skipped elements |
| HtmlText.NormalizedIsTidy | app/messages/html_safe.py:90-97 | no run of three newlines, no tab, no two adjacent spaces, no outer whitespace; every other character kept in order |
| HtmlText.NormalizedIsStable | app/messages/html_safe.py:90-97 | normalising again changes nothing |
| HtmlLaws.NewlineRunsCollapse | app/messages/html_safe.py:94 | up to two newlines in a row stay, more become two, wherever they stand |
| HtmlLaws.BlankRunsCollapse | app/messages/html_safe.py:96 | any run of spaces and tabs becomes exactly one space |
| HtmlLaws.NothingToCollapse | app/messages/html_safe.py:90-97 | text without such runs stays as it is |
| MimeWalk.BodyExtractor.Walk | app/messages/parser.py:165-199 | the mutating walk collects what the flattened leaves hold |
| MimeWalk.ExtractBodies | app/messages/parser.py:158-201 | attachments are all attachment leaves in preorder; each body is the first non-attachment leaf of its type |
| MimeWalk.FirstBodyMeaning | app/messages/parser.py:194-199 | a body is found exactly when such a leaf exists, and it is the first one |
| MimeWalk.AttachmentMeaning | app/messages/parser.py:87-102 | a leaf is an attachment exactly when marked as one or neither text nor container; its record keeps all its data |
| MimeWalk.LeavesInOrder | app/messages/parser.py:165-170 | the leaves of a container are those of its parts, one after the other |
| Urls.ExtractUrlsFromText | app/messages/urls.py:65-79 | the valid first occurrences among the matches, in order |
| Urls.ExtractUrlsFromHtml | app/messages/urls.py:82-99 | the valid first occurrences among the anchors with an href, in order |
| Urls.CollectUrls | app/messages/parser.py:215-228 | the merged list is the valid part of the first-occurrence dedupe of text links followed by HTML links |
| Urls.TwoLevelsAreOne | app/messages/parser.py:215-228 | deduplicating and filtering per source and then across sources equals doing it once |
| Urls.FirstOccurrencesMeaning | app/messages/urls.py:69-78 | no raw text twice; each with the source and link text of its first occurrence |
| Urls.BuiltUrl | app/messages/urls.py:42-62 | exactly which links become URLs, and every field of them |
| Urls.CollectedSource | app/messages/parser.py:215-228 | a collected URL is from the text exactly when its raw text is a match there, and then has no link text; otherwise it has the text of an anchor with that href |
| Urls.CollectedAreNavigable | app/messages/urls.py:42-62 | no collected URL lacks scheme or host or has a blocked scheme |
| Review.ReviewService.GetOrCreateQuarantineItem | app/quarantine/service.py:100-195 | a message's item is created pending once; re-analysis refreshes it and logs an unchanged status |
| Review.ReviewService.ReviewItem | app/quarantine/service.py:198-277 | an allowed action moves the item and logs it; an unknown or forbidden one changes nothing |
| ReviewLaws.ActionsByName | app/quarantine/service.py:43-73 | for each of the five action names from which statuses it is accepted and to which it leads, with its event, notes and provenance; any other name or status changes nothing |
| ReviewLaws.MissingItem | app/quarantine/service.py:225-233 | an item that does not exist is not found |
| ReviewLaws.QuarantineOnce | app/quarantine/service.py:126-195 | a message gets a pending item once; again only verdict, analysis and risk are refreshed, with their event |
| Review.ReviewService.CountPendingReview | app/quarantine/service.py:330-341 | the number of pending and in-review items |
| Review.ReviewService.NewAlert | app/alerts/service.py:42-88 | an open alert and its creation event |
| Review.ReviewService.NewAlertForVerdict | app/alerts/service.py:91-143 | exactly for verdicts from soft hold up, the store changes as by creating an alert of the severity of the verdict; otherwise not at all |
| Review.ReviewService.AcknowledgeAlert | app/alerts/service.py:181-221 | only an open alert is acknowledged |
| Review.ReviewService.ResolveAlert | app/alerts/service.py:224-262 | any alert but a resolved one is resolved |
| ReviewLaws.AlertSteps | app/alerts/service.py:181-262 | acknowledging needs an open alert, resolving one not resolved; each sets its own attribution, keeps the other, and replaces the note unless it brings none |
| ReviewLaws.NewAlertIsOpen | app/alerts/service.py:42-88 | a new alert is open with its severity and links alone |
| Review.AlertSeverity | app/alerts/service.py:91-143 | an alert for verdicts from soft hold up, critical exactly for an escalation, medium exactly for a soft hold |
| Review.ReviewService.RecordEvent | app/audit/service.py:21-74 | the log grows by exactly the event |
| Review.ReviewService.GetEventsForTarget | app/audit/service.py:77-91 | exactly the object's events, oldest first |
| Review.StepRecords | app/quarantine/service.py:225-265 | an operation logs at most one event, from the object's old status to its new one, and moves no other object |
| ReviewLaws.AuditReplay | app/audit/service.py:52-63 | under any interleaving each object's slice of the shared log chains from nothing to its current status, each event is an allowed transition, each message has at most one item, and the log only grows |
| ReviewLaws.ReachableIsAudited | app/quarantine/service.py:100-265 | that holds of every store reachable from the empty one |
| ReviewLaws.BoundedLifetimes | app/quarantine/service.py:43-73 | at most three status changes after creation for an item and two for an alert |
| ReviewLaws.PendingCountMatchesLog | app/quarantine/service.py:330-341 | the pending count is the number of items the log knows no release, false-positive, confirmation or deletion of |
| ReviewLaws.ReviewsAreAttributed | app/quarantine/service.py:241-244 | an item is attributed to the actor of its last logged review action, and to nobody when there is none |
| Policy.RunDeterministicChecks | app/analysis/deterministic.py:528-551 | the score of the severities, and for each targeted dimension the greatest severity aimed at it, capped at 1 |
| Policy.CombineScores | app/analysis/service.py:114-142 | the deterministic risk alone without an answer, the weighted mean with one |
| Policy.RunAnalysis | app/analysis/service.py:204-320 | verdict, risk and confidence of the answer, if any; degraded exactly without one; each dimension stored as the greater of the model's score and the greatest severity aimed at it |
| Policy.DimensionScores | app/analysis/service.py:136-140 | what is stored without findings is the model's rounded score, or 0; with findings it is never less |
| Policy.RiskAtMostOne | app/analysis/deterministic.py:538-545 | no score exceeds 1 |
| Policy.AnswerIff | app/analysis/service.py:204-263 | there is an answer exactly when the first call parses, or is malformed and the retry parses |
| Policy.ModelOutweighs | app/analysis/service.py:130-134 | with an answer the risk is 40 parts findings to 60 parts model, within rounding; without one the findings' |
| Policy.ModelAloneHolds | app/analysis/service.py:130-134 | full risk seen by the model alone is a soft hold under the defaults, seen by the findings alone a banner |
| Policy.DegradedVerdict | app/policies/verdict.py:55-58 | without an answer the verdict is that of the findings' risk raised by a tenth, at most to 1 |
| Policy.Round4Near | app/analysis/deterministic.py:538-545 | rounding is to the nearest multiple of a ten-thousandth, to an even one when halfway |
| Policy.ScoreBetweenMeanAndMax | app/analysis/deterministic.py:538-545 | mean severity <= unrounded score <= maximum severity <= 1 |
| Policy.RawScoreGrowsIff | app/analysis/deterministic.py:538-545 | inserting a severity does not lower the unrounded score if and only if it is at least the mean of the others |
| Policy.ScoreGrows | app/analysis/deterministic.py:538-545 | inserting a severity at least as great as the mean of the others never lowers the rounded score |
| Policy.MildFindingSoftens | app/policies/verdict.py:20-71 | under the default thresholds a second, mild finding turns an escalation into a quarantine |
| Policy.VerdictMonotone | app/policies/verdict.py:53-71 | a higher risk never gives a milder verdict, for any thresholds |
| Policy.DisorderedThresholds | app/policies/verdict.py:60-71 | thresholds in any order act like ordered ones, each raised to the greatest before it |
| Policy.VerdictGivenIff | app/policies/verdict.py:53-71 | for any thresholds some risk in the unit interval gets a verdict exactly when its bounds leave room there and the gateway mode has it |
| Policy.DegradedIsNeverMilder | app/policies/verdict.py:55-58 | the degraded adjustment never makes a verdict milder |
| Policy.RiskMonotoneEndToEnd | app/mailboxes/sync_service.py:482-491 | one more finding, at least as severe as the mean of the others, never gives a milder verdict nor moves the message closer to the INBOX, for any thresholds and any fixed answer of the model |

## Left out

- Sockets, timeouts, TLS, stream limits of the I/O library, logging, sessions and rollback of the database, configuration, web routes, templates, migrations and scripts.
- The regular expressions and rule bodies of the deterministic checks, prompt building and answer parsing, MIME and header decoding, URL parsing, base64, password hashing and credential encryption: their results are inputs.
- The tokenizer of the HTML library: documents arrive as its events. The links of documents outside `Proper` have no recursive meaning here; their text has one in `UnclosedTagKeepsRest`.
- Timestamps and error texts of the sync state, and the message texts of replies and log lines.
- The contents of FETCH responses (flags, sizes, literals, envelopes); a line is identified by its sequence number and UID. Stored bytes and synthesised messages are not modelled.
- The relay and capture modes of the outbound delivery service: its outcome is an input.
- Changes of the upstream folder between the searches and fetches of one run; between runs it evolves freely.
- Exceptions that leave a database session half-flushed, and concurrent writers.
- Listing of quarantine items and alerts, and the visibility update without a caller.
- LineStream.LineReader.ReadLine: does not model idle timeouts, and treats octets as characters instead of decoding UTF-8.
- SmtpConnection.Connection.Handle: does not model the prompts 334 and 354 as replies, nor connection resets.
- ImapSets.ParseUidSet: integers are read without underscores between digits and without non-ASCII digits, which int() also accepts.
- ImapConnection.Connection.CmdStatus: the regular expression that splits the arguments is an input.
- Review.ReviewService.GetOrCreateQuarantineItem: does not model the generated note of the audit event.
- Policy.RunDeterministicChecks: rounds reals to four decimals with ties to even, where the original rounds binary floats.
- Text.Upper: maps ASCII letters only.
