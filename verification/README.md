# Kavira: a verified model

Kavira is a mail server. This project models the parts of it whose correctness
shows only over whole runs, and proves what the server promises about them.
The models follow the Go code branch by branch: objects that update their
fields are classes, loops are loops with invariants, and every such method is
tied to a specification function or relation about which the run theorems are
proved. `dafny verify dfyconfig.toml` checks everything.

| part | modules |
|---|---|
| text and sorting primitives | `Text`, `Sorting` |
| Maildir names, the UID list file, one folder and its snapshots | `Flags`, `UidList`, `Maildir` |
| UID safety over every run of a folder | `UidSafety` |
| where that safety ends: failed writes, missing lists, broken-off reads | `UidFaults`, `UidCut`, `UidHeader` |
| the `Mailbox` object, and what its calls mean for files and messages | `Mailboxes` (Mailbox.dfy), `MailboxLaws` |
| the IMAP client's view: in step, behind after a silent poll, beside other sessions | `ImapView`, `ImapBehind`, `ImapFollow` |
| COPY and MOVE, as steps of a folder's runs, STORE, and the session commands | `Move`, `Walks`, `Stores` (Store.dfy), `ImapSession` |
| the IMAP argument parser and printer, LIST wildcards | `Parser`, `ParserCode`, `Wildcard` |
| the outbound queue, what becomes of an envelope, and its retry times | `QueueDue`, `Scheduler`, `Outcomes`, `Retries` |
| token buckets; login lockout and what a login is told; warm-up in plain numbers | `RateLimit`; `Guard`, `Logins`; `Reputation`, `SendingLaws` |
| POP3 and SMTP sessions, and what their clients see | `Dotted`, `Pop3`, `Pop3Laws`, `Smtp`, `SmtpView` |

## How the outside world enters

- A folder is a map from (subdirectory, name) to (bytes, modification time) plus
  the text of the UID list. A queue directory is a map from file name to content.
- Each exported mailbox call is one atomic step, and several `Mailbox` objects may
  share one folder. In the queue each attempt is a step at its own time, mail may be
  enqueued during a pass, and the process may die in a write, in an attempt or between two.
- Clock readings, names and identifiers minted by the server, fresh UIDVALIDITY
  values, disk outcomes, transport results, password checks, rate-limit answers
  and TLS handshakes are parameters, so every theorem holds for all of them.
- `sort.Slice` is not stable: the sort promises an ascending rearrangement and
  nothing about ties.
- float64 is `real`. Go's zero time is `None`.

## Where the code does not keep a promise

- When writing the UID list fails, `Refresh` has already shown the new UIDs. They
  are safe for ever if and only if what the list did not know at that scan is a
  prefix of what it did not know at the next scan that writes
  (`UidFaults.FailedWriteLasts`, `UidFaults.FailedWriteStaysSafe`). For two scans
  over the same list see `UidFaults.FailedWriteKeepsUids`.
  `UidFaults.UidReuseHappens` and `UidFaults.ShorterWriteReusesUid` are concrete
  folders where a UID is given twice.
- An error while the list file is read is taken for its end. Behind the header,
  the UIDs stay if and only if no entry of a message still there lies behind the
  break and no message is called what the entry at the break was cut to
  (`UidCut.CutKeepsUids`; `UidCut.CutRenumbers` is a concrete folder where it goes
  wrong). Within the header, there is no list, so that another UIDVALIDITY is
  reported and, if there is a message, written (`UidHeader.LostHeaderChangesValidity`),
  or one without entries and with a smaller UIDNEXT. Then all stays safe for ever
  if and only if nothing is written, because there is no message or the write
  fails, or the scan starts with exactly the listed messages from the smaller
  UIDNEXT up to the real one (`UidHeader.ShortHeaderKeepsUids`;
  `UidHeader.ShortHeaderReusesUids` is a concrete folder).
- An empty folder without a list gets a new UIDVALIDITY at every Refresh
  (`UidFaults.EmptyFolderChangesValidity`). The reported one stays if and only if
  a readable list was there or this Refresh wrote one
  (`UidFaults.ValidityStaysWhen`).
- `UidSafety.UidsAreSafe` therefore speaks of the pairs reported by Refresh calls
  that returned no error, in runs where every list is read far enough.
- The comment in `Append` says that the appended message has the highest UID. It
  does exactly when no other unlisted message sorts after it by date
  (`UidSafety.AppendedIsLastWhen`; by dates alone `UidSafety.AppendedByDate`;
  `UidFaults.BackdatedAppend` is a concrete folder where it does not).
- A poll whose Refresh cannot write the list replaces the snapshot without a word.
  The client stays behind until the first poll that sees the count change, and is
  lost for good by an EXPUNGE of a message it was not told of before that
  (`ImapBehind.BehindRun`; `ImapBehind.SilentExample` is a concrete folder).
- Another session's expunge is reported by count alone. A client follows it if and
  only if nothing it was shown has been removed (`ImapFollow.FollowsWhen`).
- Retries count from the beginning of a pass, not from the Deliver call. From call
  to call the schedule is kept by all runs if and only if the first call came at
  the very beginning of its pass (`Retries.ScheduleHoldsWhen`;
  `Retries.SlowNeighbour` is a run of two envelopes where one slow Deliver brings
  the other's retry forward).
- A second POP3 `PASS` keeps the old deletion marks. LIST is right if and only if
  none of them is beyond the new view, and QUIT removes just what was DELE'd since
  if and only if none of them falls on a message not yet Deleted
  (`Pop3.ListAfterPass`, `Pop3.QuitAfterRun`; `Pop3.EmptyAfterSecondPass` and
  `Pop3.SecondPassRemovesOther` are the concrete sessions).
- `Expunge` removes every message flagged Deleted, not only those the caller
  marked. The contracts of MOVE and of POP3 QUIT say so.

## Model

| member | source | states |
|---|---|---|
| Flags.BaseNameNoSep | internal/maildir/flags.go:54-59 | The base name is a prefix of the name and never contains the flag separator. |
| Flags.FileNameRoundTrip | internal/maildir/flags.go:54-108 | Putting flags behind a base name and splitting again returns the base if and only if the base has no separator of its own; then the flags come back as their canonical set. |
| Flags.FlagsOfCanonical | internal/maildir/flags.go:34-50 | Flags read from any name are known flags, each once, sorted. |
| Flags.SortFlags | internal/maildir/flags.go:92-94 | Sorting distinct known flags gives the one canonical sequence of their set. |
| Flags.ParseFlags | internal/maildir/flags.go:34-50 | The scanning, de-duplicating and sorting loop computes exactly the canonical set behind the first separator, and nothing without one. |
| Flags.Add | internal/maildir/flags.go:72-79 | Adding a known flag to canonical flags gives the canonical form of the union. |
| Flags.Remove | internal/maildir/flags.go:82-90 | Removing a flag keeps every other one, drops that one, and stays canonical. |
| UidList.HeaderRoundTrip | internal/maildir/mailbox.go:291-302 | The header line reads back to its UIDVALIDITY and UIDNEXT for every pair of 32-bit numbers with next at least 1. |
| UidList.RoundTrip | internal/maildir/mailbox.go:272-334 | Reading any text that writing a list may produce returns the same map, UIDVALIDITY and UIDNEXT, for all base names without line feed and not ending in CR (spaces allowed) that fit the scanner's line limit. |
| UidList.Collect | internal/maildir/mailbox.go:317-324 | Ranging over the map in any order collects every pair exactly once. |
| UidList.WriteUidList | internal/maildir/mailbox.go:316-334 | The produced text is the header and the pairs of the map, each once, in UID order. |
| UidList.ReadUidList | internal/maildir/mailbox.go:272-313 | Of the bytes the scanner received, to the end of the file or to a read error: nothing or a corrupt header starts over at UID 1 under the fresh UIDVALIDITY; otherwise the header and every well-formed line are taken. |
| UidList.ReadEntries | internal/maildir/mailbox.go:303-311 | The line loop skips malformed lines and lets later lines win. |
| Maildir.AssignFacts | internal/maildir/mailbox.go:209-217 | Known names keep their UID, unknown ones get distinct UIDs from UIDNEXT on, the new UIDNEXT is above all, and nothing else is added. |
| Maildir.AssignInScanOrder | internal/maildir/mailbox.go:204-217 | Among names that were unknown, scan order is UID order. |
| Maildir.ExpungeNumbersDescend | internal/maildir/mailbox.go:371-394 | The numbers Expunge reports are exactly the positions of the Deleted messages, strictly descending. |
| Maildir.KeptMembers | internal/maildir/mailbox.go:371-394 | What Expunge keeps is exactly the messages not flagged Deleted. |
| Maildir.PlacedPathFacts | internal/maildir/mailbox.go:398-413 | Wherever Append leaves a message, its base name is the delivered name and its flags are the requested set. |
| UidSafety.GivenStaysBijective | internal/maildir/mailbox.go:209-217 | Extending the persisted assignment keeps base names and all UIDs ever given in one-to-one correspondence, also for names long pruned from the list. |
| UidSafety.RefreshKeepsInv | internal/maildir/mailbox.go:170-252 | Every outcome of Refresh keeps the folder invariant: unreadable list, a read that breaks off behind every entry still needed, failed scan, failed write. |
| UidSafety.AlikeRefresh | internal/maildir/mailbox.go:170-252 | A list that says the same about the files there leads to exactly the same Refresh. |
| UidSafety.StepKeepsInv | internal/maildir/mailbox.go:170-436 | So does every step of every mailbox object and every delivery. |
| UidSafety.RefreshedDisk | internal/maildir/mailbox.go:240-252 | After a Refresh whose write worked, the list on disk carries the UIDVALIDITY it found and the UIDNEXT it computed, and UIDNEXT never falls. |
| UidSafety.UidsAreSafe | internal/maildir/mailbox.go:170-436 | Over every interleaving of deliveries, Refresh, SetFlags, Expunge, Append and CopyTo by any number of mailbox objects, with any disk fault except a list read that breaks off before an entry still needed: a written list stays and its UIDVALIDITY never changes, a base name and a UID reported together belong to each other alone for ever (across renames, expunges and pruning), and every UID given is below the UIDNEXT on disk. |
| UidSafety.LaterUidsAreHigher | internal/maildir/mailbox.go:209-252 | Over the same runs, every UID first given later is above every UID given before (section 2.3.1.1 of RFC 3501). |
| UidSafety.UidsFollowDelivery | internal/maildir/mailbox.go:204-217 | Of two messages new to the list, the one with the earlier date gets the smaller UID. |
| UidSafety.LastNew | internal/maildir/mailbox.go:204-217 | A new message gets the highest UID if and only if no new one follows it in the scan. |
| UidSafety.AppendedIsLastWhen | internal/maildir/mailbox.go:414-421 | The message Append returns is the appended one if and only if no other unlisted message sorts after it. |
| UidSafety.OlderIsNotLast | internal/maildir/mailbox.go:398-421 | A message appended with a date before that of another unlisted message is never the one Append returns. |
| UidSafety.AppendedByDate | internal/maildir/mailbox.go:398-421 | Told by dates: the message Append returns is the appended one whenever every other unlisted message is older, and is not whenever one is newer. |
| UidFaults.BackdatedAppend | internal/maildir/mailbox.go:398-421 | A concrete two-file folder on which Append returns the wrong message. |
| UidFaults.FailedWriteKeepsUids | internal/maildir/mailbox.go:239-251 | Over the same unwritten list, a Refresh that could not write and any other Refresh show base names and UIDs one-to-one if and only if the names unknown to the list at one scan are a prefix of those at the other. |
| UidFaults.FailedWriteLasts | internal/maildir/mailbox.go:170-251 | A Refresh could not write; whatever follows, the first Refresh to write comes later. The invariant that keeps UIDs safe for ever holds of what both have shown if and only if the names unknown at the first scan are a prefix of those unknown at the second. |
| UidFaults.FailedWriteStaysSafe | internal/maildir/mailbox.go:170-251 | If they are, every pair the failed Refresh showed is among those given, and safe, in every later world. |
| UidFaults.ShorterWriteReusesUid | internal/maildir/mailbox.go:170-251 | Three Refreshes of a concrete folder: the unwritten list shows b as 2, a prefix is written, and c is shown as 2 under the same UIDVALIDITY. |
| UidFaults.UidReuseHappens | internal/maildir/mailbox.go:239-251 | A concrete pair of folders on which two messages get one UID under one UIDVALIDITY. |
| UidFaults.ValidityStaysWhen | internal/maildir/mailbox.go:242-278 | The UIDVALIDITY a Refresh reports is the one every later Refresh finds, whatever it is offered, if and only if a readable list was there or this Refresh wrote one: the write worked and there was a message. |
| UidFaults.EmptyFolderChangesValidity | internal/maildir/mailbox.go:272-278 | Two Refreshes of an empty folder offered different values report different UIDVALIDITY. |
| UidCut.ScanCut | internal/maildir/mailbox.go:283-312 | The first k bytes of a text scan as its whole lines and the half one as if it ended there. |
| UidCut.CutParses | internal/maildir/mailbox.go:283-312 | A list whose read breaks off behind the header is taken for the entries wholly read, and one under a shortened name when half an entry was read far enough. |
| UidCut.AlikeWhenNothingLost | internal/maildir/mailbox.go:283-312 | For the files that are there, the broken-off list says what the whole one says if and only if no visible file's entry lies behind the break and none is called what the half entry was cut to. |
| UidCut.CutKeepsUids | internal/maildir/mailbox.go:170-312 | In every world of a run, a Refresh whose list read breaks off behind the header keeps all pairs ever given one-to-one if and only if that holds. |
| UidHeader.HeaderLost | internal/maildir/mailbox.go:286-302 | A list that breaks off within its header is no list, or one without entries and with a UIDNEXT that is positive and smaller. |
| UidHeader.LostHeaderChangesValidity | internal/maildir/mailbox.go:170-302 | Without a header the offered UIDVALIDITY is reported, and it replaces the one on disk exactly when there is a message and the write works. |
| UidHeader.EveryUidTaken | internal/maildir/mailbox.go:209-252 | Over every run, each UID below the UIDNEXT on disk has been given to some message. |
| UidHeader.ShortHeaderKeepsUids | internal/maildir/mailbox.go:170-302 | After a Refresh that read a smaller UIDNEXT and no entries, the invariant that keeps UIDs safe for ever holds if and only if nothing was written (no message, or the write failed) or the scan starts with exactly the listed messages numbered from there up to the real UIDNEXT, in order, and only unlisted ones follow. |
| UidHeader.ShortHeaderReusesUids | internal/maildir/mailbox.go:170-302 | A concrete folder: UIDNEXT 10 is read as 1, the one message keeps its UID, and the list written counts on from 2 although UID 9 was given. |
| UidCut.ListsAreWritten | internal/maildir/mailbox.go:242-345 | Every list a run can have on disk is the text of its own content, so the three statements above speak of all of them. |
| UidCut.CutRenumbers | internal/maildir/mailbox.go:283-312 | A concrete list of two messages: the read breaks off behind the header, and both get new UIDs under the old UIDVALIDITY. |
| Mailboxes.Scan | internal/maildir/mailbox.go:183-202 | Reading new/ and then cur/ finds every visible file exactly once with its own data. |
| Mailboxes.ScanByTime | internal/maildir/mailbox.go:183-208 | The sorted scan is every visible file once, oldest first. |
| Mailboxes.AssignUids | internal/maildir/mailbox.go:209-217 | The loop computes the specified assignment, and its dirty flag is set exactly when the assignment changed. |
| Mailboxes.BuildMessages | internal/maildir/mailbox.go:219-238 | The message list fits the specified snapshot: every visible file once, in UID order, numbered from 1; MailboxLaws.SnapshotTells says what each message shows. |
| Mailboxes.Renumbered | internal/maildir/mailbox.go:236-238 | The numbering loop sets exactly the sequence numbers. |
| Mailboxes.Prune | internal/maildir/mailbox.go:242-250 | The pruned map is the assignment restricted to files still there. |
| Mailboxes.TakeSnapshot | internal/maildir/mailbox.go:178-238 | Scan, assignment and message list fit one scan order. |
| Mailboxes.Mailbox.Refresh | internal/maildir/mailbox.go:170-252 | For each disk fault the new folder and mailbox state are those of the Refresh relation that the run theorem and MailboxLaws.SnapshotTells are about. |
| MailboxLaws.SnapshotTells | internal/maildir/mailbox.go:183-238 | After a Refresh that scans, every visible file is shown exactly once and nothing else is: with the flags its name tells, recent if and only if it is in new/, with its size and its modification time. |
| Mailboxes.Mailbox.SetFlags | internal/maildir/mailbox.go:350-366 | It renames one file to its base name plus flags in cur/ and updates one message, or fails and changes nothing; it fails exactly when a needed rename fails or the file is missing. |
| MailboxLaws.FlaggedFile | internal/maildir/mailbox.go:350-366 | A flag change leaves the file in cur/ under its base name and the new flags, with its bytes and date, the only one of its base name. |
| MailboxLaws.FlagsSetAreShown | internal/maildir/mailbox.go:183-366 | After a SetFlags that worked, the next Refresh of any mailbox object shows that message with exactly the flags set, not recent, with its size and date. |
| MailboxLaws.RefreshDates | internal/maildir/mailbox.go:183-238 | A Refresh leaves a snapshot with the sizes and dates of its files, which is what MOVE needs to copy them. |
| MailboxLaws.FlagsKeepDates | internal/maildir/mailbox.go:350-366 | A flag change keeps that. |
| MailboxLaws.ExpungeKeepsDates | internal/maildir/mailbox.go:371-394 | So does an Expunge. |
| Mailboxes.Mailbox.Expunge | internal/maildir/mailbox.go:371-394 | On success exactly the Deleted messages' files are gone, the rest is renumbered and the numbers come highest first; on failure the snapshot is unchanged and at most Deleted files are gone. |
| MailboxLaws.ExpungeTakes | internal/maildir/mailbox.go:371-394 | A successful Expunge takes the file of every message whose flags hold T and no other, and reports nothing exactly when there is none. |
| Mailboxes.Mailbox.RemoveDeleted | internal/maildir/mailbox.go:371-386 | The removal loop splits the snapshot into kept and gone, and stops at the first removal that fails. |
| Mailboxes.Mailbox.Append | internal/maildir/mailbox.go:398-422 | On every outcome folder and state are those of the delivery part followed, if it worked, by a Refresh: nothing after a failed Deliver, exactly one file in new/ after a failed rename, else one file with the given bytes, date and flags; on success the last message is returned; no other file is ever touched, and it fails only with the disk. |
| Mailboxes.Mailbox.ShowLast | internal/maildir/mailbox.go:414-421 | The Refresh of a folder with a placed message is never empty, so a last message is returned unless the Refresh fails. |
| Mailboxes.Mailbox.Place | internal/maildir/mailbox.go:398-413 | The file ends in new/ without flags, else in cur/ under its flags; a failed rename leaves exactly that file in new/, a failed Deliver nothing; every other file is as before. |
| ImapView.HearExpunge | internal/imap/session.go:638-641 | A client that applies the reported removals one at a time ends with exactly the kept messages. |
| ImapView.RefreshShowsAll | internal/maildir/mailbox.go:206-240 | After a successful Refresh the snapshot shows every file of the folder, under the UID given to it, in ascending UID order. |
| ImapView.RefreshAppends | internal/maildir/mailbox.go:206-240 | When nobody else removed mail, the old snapshot is a prefix of the new one. |
| ImapView.HearReportWhen | internal/imap/session.go:710-724 | Hearing the report gives the new mailbox if and only if the old one is a prefix of it. |
| ImapView.HearReport | internal/imap/session.go:710-724 | So a mailbox that only grew is reported completely, whether or not a report is sent. |
| ImapView.PollKeepsStep | internal/imap/session.go:710-724 | NOOP, IDLE and the report after APPEND keep client and server in step. |
| ImapView.StoreKeepsStep | internal/maildir/mailbox.go:350-366 | A flag change keeps base name, UID and position, so the client stays in step. |
| ImapView.ExpungeKeepsStep | internal/imap/session.go:628-644 | EXPUNGE drops the Deleted messages from folder, snapshot and client alike. |
| ImapView.OthersKeepStep | internal/maildir/mailbox.go:170-252 | Deliveries and Refreshes by other mailbox objects do not disturb the session's snapshot. |
| ImapView.SilentPoll | internal/imap/session.go:710-724 | After a poll whose Refresh could not write the list and deliveries alone, the very next poll brings the client back in step if and only if there was a delivery. |
| ImapBehind.FailedPollFallsBehind | internal/imap/session.go:710-724 | After such a poll the client holds exactly the first messages of the session's longer snapshot. |
| ImapBehind.HearShort | internal/imap/session.go:638-641 | A client that knows only the first messages is lost by an EXPUNGE report if and only if it names one beyond them; otherwise it keeps exactly what is kept of its own. |
| ImapBehind.BehindRun | internal/imap/session.go:420-724 | Over every run of polls, STOREs, EXPUNGEs, deliveries and other objects' Refreshes: the client stays behind with a right first part until the first poll that sees the count change (or an APPEND) brings it in step for good, or the first EXPUNGE of a message it was not told of loses it for good. |
| ImapBehind.SilentExample | internal/imap/session.go:710-724 | A concrete folder: the client holds nothing of a mailbox of one, is told nothing by the next poll, and cannot place the number of its EXPUNGE. |
| ImapFollow.FollowsWhen | internal/imap/session.go:710-724 | Whatever other sessions did to the folder since the client was in step, deliveries, flag changes and expunges: the next poll brings it in step again if and only if no message it was shown has been removed. |
| ImapView.SelectStartsInStep | internal/imap/session.go:420-454 | After SELECT the client that heard EXISTS holds the snapshot. |
| ImapView.ClientStaysInStep | internal/imap/session.go:420-724 | From SELECT on, after every event of every run in which only deliveries, other objects' Refreshes and this session's commands touch the folder and disk steps succeed, a client replaying EXISTS and EXPUNGE one at a time holds exactly the server's snapshot, with ascending UIDs and sequence numbers equal to positions (sections 7.3.1 and 7.4.1 of RFC 3501). |
| Move.CopyTo | internal/maildir/mailbox.go:425-436 | On every outcome the destination, list included, is as the Refresh that opens it and the Append leave it; on success it gains exactly one file with the message's bytes, flags and date; no file of it is ever disturbed; it fails only when the file is missing or the disk fails. |
| Move.Select | internal/imap/fetch.go:16-38 | The selected positions are exactly those whose UID or sequence number the set covers, with * as the highest UID or the count, in snapshot order. |
| Move.RefreshGivesGoodSnapshot | internal/maildir/mailbox.go:219-238 | A Refresh snapshot has canonical flags, distinct base names and sequence numbers equal to positions. |
| Move.CopyAll | internal/imap/fetch.go:463-471 | If the copy loop finishes, every selected message has its copy and nothing else was added; finished or not, no file is disturbed. |
| Move.CopiesAreTrue | internal/maildir/mailbox.go:425-436 | From such a snapshot each copy has the bytes and the modification time of the original file and the flags of the original file's name. |
| Move.MarkAll | internal/imap/fetch.go:472-479 | On success exactly the selected messages are Deleted and their files follow; wherever it stops, no other file is touched and the snapshot stays good; it fails only with the disk. |
| Move.MarkAndExpunge | internal/imap/fetch.go:472-487 | The second half of a move: on every outcome each file neither selected nor Deleted before stays as it was; on success the originals are gone. |
| Move.ExpungeRemovesMarked | internal/imap/fetch.go:472-485 | After the expunge no file of a selected message is left, and every file neither selected nor flagged Deleted before is as it was. |
| Move.ExpungeSparesRest | internal/imap/fetch.go:480-485 | However far the removal gets before it fails, it takes only files of selected or already Deleted messages. |
| Move.ExpungeKeepsRest | internal/imap/fetch.go:480-487 | The new snapshot is exactly the unselected messages not flagged Deleted, with their UIDs; the numbers are exactly the others, strictly descending. |
| Move.CopiesKeepUnique | internal/imap/fetch.go:463-471 | Copies into the source folder keep base names unique. |
| Move.CopiesSurvive | internal/imap/fetch.go:463-485 | When source and destination are the same folder, marking and expunging the originals leaves every copy. |
| Move.MoveMessages | internal/imap/fetch.go:463-489 | After an OK MOVE every selected message is gone from the source and has a copy with the same bytes, date and pre-move flags in the destination, every other message not flagged Deleted is still there with its UID, and the reported numbers are exactly the removed ones, also when both folders are the same; on every outcome, NO included, each message not flagged Deleted before is still in the source or has its copy; when the files are there and the disk works, the answer is OK (section 3.3 of RFC 6851). |
| Walks.AppendIsWalk | internal/maildir/mailbox.go:398-422 | Whatever Append does, on every outcome, is a sequence of steps of the folder's run: nothing, a delivery, or a placed message and a Refresh. |
| Walks.CopyIsWalk | internal/maildir/mailbox.go:425-436 | So is CopyTo, with a mailbox object of its own. |
| Walks.MoveWithinIsWalk | internal/imap/fetch.go:463-489 | So is a whole MOVE within a folder, from its first copy to its Expunge, wherever it stops. |
| Walks.MoveKeepsUid | internal/imap/fetch.go:463-489 | So UID safety covers it: any UID reported for a base name after the move, on any run that goes on from there, is the one reported before. |
| ImapSession.CountRecent | internal/maildir/mailbox.go:118-126 | The loop counts the recent messages. |
| ImapSession.RecentIsCount | internal/maildir/mailbox.go:118-126 | It is the number of messages with the recent mark. |
| ImapSession.Connection.Select | internal/imap/session.go:420-454 | SELECT answers with the EXISTS and RECENT of a fresh Refresh, or leaves the session as it was. |
| ImapSession.Connection.PollAndReport | internal/imap/session.go:710-724 | The report is sent exactly when the Refresh worked and the count changed. |
| ImapSession.Connection.CmdAppend | internal/imap/session.go:646-700 | The message goes in through a mailbox object of its own; exactly when a session is selected on the same folder it is refreshed and told the count; nothing else in the folder changes. |
| ImapSession.Connection.ReportAppended | internal/imap/session.go:693-698 | The refresh of the selected folder and its count, sent also when the Refresh fails. |
| Stores.NewFlags | internal/imap/fetch.go:396-411 | FLAGS, +FLAGS and -FLAGS give exactly the wanted set, the union and the difference, in canonical form. |
| Stores.StoreMessages | internal/imap/fetch.go:396-413 | The loop of STORE: each selected message, exactly when its rename works or none is needed, has the flags FLAGS, +FLAGS or -FLAGS ask for, and its file is in cur/ under its base name with those flags and the same bytes; otherwise message and file are as before; every other message and every file that belongs to none of them is untouched, and no file is new. |
| ImapSession.Connection.CmdStore | internal/imap/fetch.go:355-430 | When STORE is answered OK, each selected message and its file have their flags changed as asked, and are left alone only where the rename fails; no other message and no other file changes, and UIDs and numbers stay; STORE is answered OK exactly in a writable selected state and for a known operation. |
| ImapSession.RefreshedIsGood | internal/maildir/mailbox.go:170-252 | Whatever a Refresh does, the snapshot it leaves is numbered, with canonical flags and distinct base names. |
| Stores.FlaggedIsGood | internal/maildir/mailbox.go:350-366 | So does a flag change. |
| Move.ExpungedIsGood | internal/maildir/mailbox.go:371-394 | So does an Expunge, so that MOVE finds such a snapshot at any time of a session. |
| ImapSession.Connection.CmdExpunge | internal/imap/session.go:628-644 | Outside a writable selected state nothing happens; otherwise the EXPUNGE responses are the numbers of the mailbox's Expunge, in its order. |
| ImapSession.Connection.CmdClose | internal/imap/session.go:614-626 | CLOSE expunges without a response and leaves the selected state whatever the disk says; when read-only it removes nothing. |
| ImapSession.Connection.CmdMove | internal/imap/fetch.go:452-489 | The destination is opened first, which may fail or write its list, also when the selected mailbox is read-only and MOVE is refused; else MOVE conserves the mail, a client that hears its EXPUNGE responses goes from the old to the new snapshot, and on every outcome nothing is lost. |
| ImapSession.MoveHearing | internal/imap/fetch.go:462-487 | The move without its responses: the mail is conserved and the numbers are those that take a client to the new snapshot. |
| ImapSession.MoveHeard | internal/imap/fetch.go:472-487 | The EXPUNGE responses of a MOVE take any client from the old snapshot to the new one. |
| Parser.Next | internal/imap/parse.go:65-80 | On every line and position the parser fails or strictly advances within the line. |
| Parser.ParseItems | internal/imap/parse.go:153-171 | So does the list parser, which makes the mutual recursion terminate. |
| Parser.QuotedReadsBack | internal/imap/parse.go:106-265 | An escaped string in front of a quote reads back as itself. |
| Parser.NextReadsBack | internal/imap/parse.go:65-171 | A printed tree followed by the end of a token is read back and consumed exactly. |
| Parser.ItemsReadBack | internal/imap/parse.go:153-171 | A printed list behind its parenthesis is read back item by item. |
| Parser.ParserUndoesPrinter | internal/imap/parse.go:65-265 | Any trees of lists, atoms and arbitrary strings printed with quote, spaces and parentheses are returned exactly by all(). |
| ParserCode.ArgParser.NextToken | internal/imap/parse.go:65-80 | The object returns what the grammar says, moves pos exactly behind it, and strictly advances on success. |
| ParserCode.ArgParser.AtomToken | internal/imap/parse.go:91-104 | The atom loop agrees with the grammar. |
| ParserCode.ArgParser.QuotedString | internal/imap/parse.go:106-129 | The quoted-string loop agrees with the grammar, including an escape at the end of the line. |
| ParserCode.ArgParser.Literal | internal/imap/parse.go:131-151 | Literal sizes outside 0..64 MiB, missing braces and failed reads are refused; otherwise the line is consumed. |
| ParserCode.ArgParser.List | internal/imap/parse.go:153-171 | The list loop agrees with the grammar. |
| ParserCode.ArgParser.AllTokens | internal/imap/parse.go:174-187 | all() returns the tokens of the whole line or fails exactly where the grammar does. |
| ParserCode.QuoteString | internal/imap/parse.go:254-265 | What quote produces reads back as exactly the one string. |
| ParserCode.Contains | internal/imap/parse.go:234-251 | A number is contained exactly when some range covers it, ends in either order and * resolved. |
| Wildcard.Match | internal/imap/session.go:498-530 | The matcher holds exactly when the name can be cut so that each literal matches itself, each * takes any substring and each % one without a dot. |
| Wildcard.MatchesFirst | internal/imap/session.go:498-530 | A pattern matches exactly by choosing the length of its first piece. |
| Wildcard.LoosenKeepsMatches | internal/imap/session.go:498-530 | Replacing % by * never loses a match, and adds none when the name has no dot. |
| RateLimit.PruneKeepsLevels | internal/ratelimit/ratelimit.go:71-80 | Dropping full buckets changes no key's level, now or later. |
| RateLimit.RefillRate | internal/ratelimit/ratelimit.go:56-62 | In a time T exactly limit * T / window tokens flow in. |
| RateLimit.BucketFills | internal/ratelimit/ratelimit.go:56-62 | A bucket with t tokens, untouched for T, holds min(limit, t + limit * T / window). |
| RateLimit.AllowLevels | internal/ratelimit/ratelimit.go:45-69 | A call is granted exactly when its key's level is at least one, takes that one, and leaves every other key's level alone. |
| RateLimit.AfterBounded | internal/ratelimit/ratelimit.go:45-69 | Over every timed run tokens stay within 0..limit. |
| RateLimit.PruningIsInvisible | internal/ratelimit/ratelimit.go:45-80 | Over every timed run the limiter answers every Allow as one that never prunes. |
| RateLimit.Potential | internal/ratelimit/ratelimit.go:45-69 | Grants plus what is left never exceed limit + limit * T / window over an interval of length T. |
| RateLimit.RateBound | internal/ratelimit/ratelimit.go:45-69 | In any interval of any timed run a key is granted at most limit + limit * T / window events. |
| RateLimit.LevelMeans | internal/ratelimit/ratelimit.go:45-69 | Over every timed run, a key can draw x tokens if and only if x is within the limit and, counted from every earlier call, its grants and x stay within limit + limit * T / window. |
| RateLimit.GrantedWhen | internal/ratelimit/ratelimit.go:45-69 | So the bound is all that is asked: each call of every timed run is granted if and only if with it the key stays within limit + limit * T / window since every earlier call. |
| RateLimit.PatientIsGranted | internal/ratelimit/ratelimit.go:45-69 | With limit at least 1, a key whose calls are at least window/limit apart is never refused. |
| RateLimit.Limiter.TryAllow | internal/ratelimit/ratelimit.go:45-69 | Granted exactly when the refilled, capped bucket (the limit, for a new key) holds a token, which is then taken; every other bucket stays or, in a full table, is dropped when it holds the limit. |
| RateLimit.Limiter.DropFull | internal/ratelimit/ratelimit.go:73-80 | Deleting while ranging removes exactly the full buckets. |
| Guard.FailAgrees | internal/auth/guard.go:47-74 | A failure depends only on what of an entry still matters, pruned or not. |
| Guard.PruningIsInvisible | internal/auth/guard.go:37-91 | Over every timed run the guard answers every Blocked and every Fail delay as one that never prunes. |
| Guard.PruningKeepsVerdicts | internal/auth/auth.go:45-69 | Over every serial run of logins every verdict and delay is that of a guard without pruning. |
| Logins.LoginMeans | internal/auth/auth.go:45-69 | Over every serial run, told by the verdicts before it: a login is refused as locked if and only if a failed login on its user or its address reached the threshold less than a lockout ago and no login on that key was accepted since; otherwise it is accepted if and only if the password is right, and a wrong one is held back 250, 500, 1000, 2000 or 4000 ms by the longer run of failures of its two keys. |
| Logins.InvalidCounts | internal/auth/auth.go:57-66 | A wrong password is one more failure in a row on both keys, entered at its own time; only a full table that finds the first entry expired when it makes room for the second drops it. |
| Logins.AcceptedClears | internal/auth/auth.go:67-69 | A success leaves neither key any entry. |
| Logins.OthersKeepTheirs | internal/auth/guard.go:47-91 | Every other key keeps its entry unless a full table drops it as expired, and a refused login changes nothing. |
| Guard.FailureBalances | internal/auth/guard.go:47-74 | One more failure is paid for: a new epoch by two lockouts of quiet, a failure past the threshold by one lockout. |
| Guard.BooksBalance | internal/auth/guard.go:37-74 | The books stay balanced along any run without success. |
| Guard.LockoutBound | internal/auth/guard.go:37-74 | Between any two checked failures of a key without success in between there are E and X with at most maxFailures * E + X checked failures and lockout * (2(E-1) + X) within the span. |
| Guard.LockoutClosed | internal/auth/guard.go:37-74 | As one number: with q lockouts in the span, at most maxFailures + q + (q / 2) * max(0, maxFailures - 2) checked failures. |
| Guard.LockoutShortSpan | internal/auth/guard.go:37-74 | In less than one lockout a key gets at most maxFailures guesses. |
| Guard.BlockedMeans | internal/auth/guard.go:37-91 | After any timed run a key is blocked if and only if one of its failures reached the threshold less than a lockout ago and no success has cleared it since. |
| Guard.LoginGuard.AddFailure | internal/auth/guard.go:47-74 | Entries and delay are those of the specified failure, with the prune in between. |
| Guard.LoginGuard.DropStale | internal/auth/guard.go:85-91 | Deleting while ranging removes exactly the stale entries. |
| Guard.LoginGuard.CheckLogin | internal/auth/auth.go:45-69 | The object does what Verify specifies: the two keys are asked, failed or cleared in order; Logins.LoginMeans says what every login of a run is told. |
| QueueDue.OldestFirstSorted | internal/queue/queue.go:128-133 | The insertion sort's result is sorted by creation time. |
| QueueDue.OldestFirstPermutes | internal/queue/queue.go:128-133 | It is a rearrangement. |
| QueueDue.OldestFirstStable | internal/queue/queue.go:128-133 | It keeps envelopes of one creation time in directory order. |
| QueueDue.DueListIsRight | internal/queue/queue.go:71-80 | The due list is exactly the envelopes whose time has come, oldest first, ties in directory order. |
| QueueDue.Sink | internal/queue/queue.go:128-133 | The inner swap loop inserts one envelope into the sorted front and leaves the rest of the array. |
| QueueDue.SortInPlace | internal/queue/queue.go:128-133 | The array ends as the specified stable sort of what it held. |
| QueueDue.DueList | internal/queue/queue.go:71-80 | Filtering into the front of the same backing array returns the due part of the sorted list. |
| Scheduler.BackoffIsCappedPower | internal/queue/scheduler.go:153-162 | The capped shift equals min(2^(a-1), 240) minutes for every number of attempts. |
| Scheduler.ClosedStep | internal/queue/scheduler.go:153-162 | The waits add up to 2^(k-1) - 1 minutes up to k = 9 and 240 more per call beyond. |
| Scheduler.WriteFacts | internal/queue/queue.go:141-155 | However a tmp+rename write ends, other envelopes are untouched, and its own file is the new one or the old one, never half of it. |
| Scheduler.AttemptSound | internal/queue/scheduler.go:105-149 | One attempt, with any transport result and any store outcome, keeps every enqueued envelope whole on disk, delivered or bounced. |
| Scheduler.NothingIsLost | internal/queue/scheduler.go:95-149 | For every transport, every store failure and every crash (in a write, in an attempt, between two), with mail enqueued at any time: an envelope whose Enqueue succeeded is whole on disk or was delivered or handed to bounce. |
| Scheduler.AttemptAccounted | internal/queue/scheduler.go:105-149 | With a working store one attempt keeps ledger, attempt count and schedule. |
| Scheduler.StepAccounted | internal/queue/scheduler.go:95-149 | So does every step of a run: an Enqueue during a pass, its beginning and end, and a stop between two attempts. |
| Scheduler.QueueBalances | internal/queue/scheduler.go:95-149 | With a working store, over every such run: enqueued = delivered + bounced + still queued, each envelope in exactly one of them, delivered or bounced at most once, and handed to the transport at most maxAttempts times, less often while it is queued. |
| Outcomes.DeliveredMeans | internal/queue/scheduler.go:105-115 | Over every run, with every store fault and crash: an envelope is logged as delivered if and only if some attempt on it was answered with success. |
| Outcomes.BouncedMeans | internal/queue/scheduler.go:117-139 | With a working store it is handed to bounce if and only if some attempt on it failed permanently, or transiently as at least the maxAttempts-th. |
| Outcomes.BouncedOnlyWhen | internal/queue/scheduler.go:117-139 | With every store fault and crash it is bounced only then. |
| Outcomes.BouncedByFile | internal/queue/scheduler.go:117-139 | And exactly then when the attempts are those its file has counted, which a failed update may leave too low. |
| Outcomes.QueuedMeans | internal/queue/scheduler.go:105-149 | With a working store it is still queued if and only if no attempt on it was answered with success, permanent failure or a last transient one, and its file counts every attempt. |
| Outcomes.DeferredMeans | internal/queue/scheduler.go:127-149 | A transient failure as the n-th attempt, below the limit, leaves it queued with n attempts, the transport's words and the next time min(2^(n-1), 240) minutes after the beginning of the pass, everything else as it was, neither delivered nor bounced. |
| Outcomes.UntouchedUntilTried | internal/queue/queue.go:105-155 | Until the next attempt on it, nothing changes the file of an envelope, whatever fails. |
| Outcomes.FilesTell | internal/queue/queue.go:50-155 | Whatever fails, an envelope on disk has the addresses, times and data of one that was enqueued, and counts no attempt that was not made. |
| Outcomes.TriedIsAsked | internal/queue/scheduler.go:95-106 | So what the transport is handed is a message as it was enqueued. |
| Outcomes.CallsAreLogged | internal/queue/scheduler.go:95-106 | The log of Deliver calls is exactly the attempts and the calls the process died in, with their times and those of their passes. |
| Scheduler.RetriesAreSpaced | internal/queue/scheduler.go:95-162 | The n-th Deliver call on an envelope, and the beginning of its pass, come at least 2^(n-1) - 1 minutes after the beginning of the pass of the first call for n up to 9, and 255 + 240(n-9) beyond. |
| Retries.ScheduleHoldsWhen | internal/queue/scheduler.go:95-162 | For every lag L: all runs whose first call on an envelope came L after the beginning of its pass keep the schedule from call to call if and only if L is 0. |
| Retries.SlowNeighbour | internal/queue/scheduler.go:95-162 | A run of two envelopes due in one pass: if the first one's Deliver takes any time, the second one's retry comes less than a minute after its call, and at once if it takes a minute or more. |
| Scheduler.ProcessIsPath | internal/queue/scheduler.go:95-103 | A pass that nothing interrupts is a path of steps: its beginning, one attempt per due envelope at its own time, its end. |
| Retries.QueueDrains | internal/queue/scheduler.go:95-162 | From any state of a run with a working store, maxAttempts uninterrupted passes, each begun four hours after the one before, leave no envelope of the start queued: each has been delivered or bounced. |
| Scheduler.Spool.Put | internal/queue/queue.go:50-66 | A recipient without a domain is refused and nothing changes; otherwise it is the Enqueue step of a run, with lowercased addresses, attempts 0 and due at once. |
| Scheduler.Spool.Save | internal/queue/queue.go:141-155 | The directory after the write is as specified for each way it may end. |
| Scheduler.Spool.TryOne | internal/queue/scheduler.go:105-149 | The object does what one attempt specifies; Outcomes says what becomes of an envelope by what the transport answered. |
| Scheduler.Spool.Load | internal/queue/queue.go:105-127 | The envelopes of the parsable .json files, in directory order; tmp and broken files are skipped. |
| Scheduler.LoadedIsListing | internal/queue/queue.go:105-127 | In every queue a run can reach, what load reads is every parsable envelope exactly once, under its own name. |
| Scheduler.Spool.Process | internal/queue/scheduler.go:95-103 | From a queue a run can reach, Process attempts exactly the due part of what load reads, in order, and leaves the state the uninterrupted pass specifies. |
| Reputation.LimitWithin | internal/reputation/reputation.go:228-247 | The cap lies between the first day's and the full one for every age. |
| Reputation.LimitMonotone | internal/reputation/reputation.go:228-247 | The cap never shrinks with age, across all four pieces and their truncation. |
| SendingLaws.LimitIs | internal/reputation/reputation.go:228-247 | Up to a day the first day's cap, at seven days the second, from thirty on the full one, and between them the straight line by the age in nanoseconds, in integer division. |
| Reputation.GetFine | internal/reputation/reputation.go:100-126 | Decay and day rollover keep scores in 0..100 and the day's count under the cap. |
| SendingLaws.GetMeans | internal/reputation/reputation.go:100-126 | A new record has 50 points and no counts; after a day or more the score moves toward 50 by the time in days and stops there; after a day the day's count starts at zero; nothing else changes. |
| SendingLaws.EventMeans | internal/reputation/reputation.go:45-146 | Delivery +0.5, authentication +0.2, bounce -2, complaint -15, blacklisting -30 and anomaly -25 points, within 0..100, each with its count; no other record changes. |
| Reputation.GrantedHasRoom | cmd/kavira/main.go:556-570 | A granted MaySend leaves room for one more under the cap of that moment. |
| SendingLaws.GrantedWhen | cmd/kavira/main.go:556-570 | MaySend is granted if and only if both scores are above 10 and, with the ramp on, the day's count of the domain is below its cap. |
| Reputation.DeliveryFine | internal/reputation/reputation.go:129-146 | Counting a delivery later, also on the next day, stays under the cap of that later moment. |
| Reputation.CapHolds | internal/reputation/reputation.go:100-263 | In every serial run where each delivery follows a granted MaySend, no domain's count of the day exceeds the cap for its current age, and the score of every record, user or domain, stays within 0..100. |
| SendingLaws.DayHolds | internal/reputation/reputation.go:100-263 | In the same runs the day's count is the number of deliveries of the domain since its day began, and that is within the cap. |
| SendingLaws.AnyDayHolds | internal/reputation/reputation.go:100-263 | In any 24 hours, wherever they begin, a domain delivers at most twice the full cap. |
| SendingLaws.AgeCounts | internal/reputation/reputation.go:100-110 | The age of a domain counts from the operation that first names it. |
| Reputation.Store.Fetch | internal/reputation/reputation.go:100-126 | Created at the baseline, or decayed toward it by whole waiting time and rolled to a new day. |
| Reputation.Store.NoteEvent | internal/reputation/reputation.go:129-146 | The record is the specified one and the score is clamped to 0..100. |
| Reputation.Store.AllowSend | internal/reputation/reputation.go:251-263 | A disabled ramp always allows, reports no cap and touches nothing; otherwise the reported cap is the ramp's for the age of the record, and it allows if and only if that is 0 or above the day's count. |
| Reputation.Store.Ask | cmd/kavira/main.go:556-570 | The two score checks and the cap are asked in order, touching only what was asked. |
| Reputation.Store.Sent | cmd/kavira/main.go:571-577 | Both records count the delivery. |
| Dotted.SplitJoin | internal/pop3/pop3.go:402-428 | Splitting joined lines returns the lines, so cutting the body to n lines cuts exactly those. |
| Dotted.StuffedReadsBack | internal/pop3/pop3.go:407-416 | A stuffed line is read back as itself and never ends the response. |
| Dotted.ReaderUndoesWriter | internal/pop3/pop3.go:402-428 | For every message and limit, a reader that splits on CRLF, stops at the first lone dot and removes one leading dot reads the whole output, nothing of what follows, and recovers header lines, blank line and the first n body lines (section 3 of RFC 1939). |
| Dotted.WriteBlock | internal/pop3/pop3.go:407-416 | The write closure sends every line of the block stuffed. |
| Dotted.Send | internal/pop3/pop3.go:402-428 | What writeDotted sends is what the reader theorem is about. |
| Pop3Laws.ClientReads | internal/pop3/pop3.go:402-428 | Of a message joined from header and body lines by CRLF, the client of RETR reads exactly those lines with the blank line in between, the client of TOP n only the first n body lines, and for n = 0 not even the blank line. |
| Pop3.ListCountIsRight | internal/pop3/pop3.go:346-367 | LIST announces as many messages as it prints if and only if every mark is a message number. |
| Pop3Laws.ListedIs | internal/pop3/pop3.go:346-367 | LIST prints every unmarked number once, in ascending order. |
| Pop3.PassStarts | internal/pop3/pop3.go:269-298 | A login, the first or a further one, starts from a frozen snapshot with all its files present. |
| Pop3.StepKeeps | internal/pop3/pop3.go:300-497 | Every command but a further PASS, and every delivery, keeps numbering, the frozen messages and every file. |
| Pop3.UntilQuit | internal/pop3/pop3.go:269-497 | Over every run with one login: numbering is fixed, the marks are exactly the DELEs accepted since the last RSET and lie in 1..N, LIST's count is right, and nothing has been removed (sections 5 and 6 of RFC 1939). |
| Pop3.ListAfterPass | internal/pop3/pop3.go:269-367 | Over every run with any number of logins, LIST announces what it prints if and only if no mark from before the last PASS is beyond the new view. |
| Pop3.EmptyAfterSecondPass | internal/pop3/pop3.go:269-298 | A concrete session (PASS, DELE 1, mail removed elsewhere, PASS) in which LIST announces -1 messages. |
| Pop3.SecondPassRemovesOther | internal/pop3/pop3.go:269-298 | A concrete session in which QUIT removes a message that nobody DELE'd. |
| Pop3.QuitRemovesExactly | internal/pop3/pop3.go:501-527 | Flagging the marks and expunging removes exactly the marked and the already Deleted messages and no other file. |
| Pop3.QuitAppliesMarks | internal/pop3/pop3.go:501-527 | In terms of the frozen view, from the flagging loop and the Expunge: a message is gone exactly when marked or already flagged Deleted, and no other file is touched. |
| Pop3.QuitAfterRun | internal/pop3/pop3.go:269-527 | For the whole session, any run with any number of logins and then a QUIT with some mark: exactly the messages DELE'd since the last PASS (and RSET) and those already Deleted are gone, if and only if no mark from before that PASS falls on a message not already Deleted; mail delivered meanwhile stays. (Without a mark QUIT removes nothing, see CmdQuit.) |
| Pop3.NothingCarried | internal/pop3/pop3.go:269-497 | With one login no mark is carried over, and the marks since it are all there are. |
| Pop3.QuitAfterOneLogin | internal/pop3/pop3.go:269-527 | So with one login a QUIT with some mark removes exactly what was DELE'd since the last RSET and what was already Deleted, and mail delivered meanwhile stays. |
| Pop3.PopSession.CmdPass | internal/pop3/pop3.go:269-298 | A good login takes a new snapshot of the user's folder and leaves the marks as they are; a failed one leaves the session as it was. |
| Pop3.PopSession.CmdDele | internal/pop3/pop3.go:479-489 | DELE marks a number in range that is not marked yet, and nothing else. |
| Pop3.PopSession.CmdRset | internal/pop3/pop3.go:491-497 | RSET clears the marks. |
| Pop3.PopSession.CmdList | internal/pop3/pop3.go:346-367 | The lines are the unmarked numbers; the announced count equals them when all marks are in range. |
| Pop3.PopSession.CmdRetr | internal/pop3/pop3.go:430-449 | RETR sends exactly the bytes of an unmarked message in range whose file is there, and may mark that one Seen; nothing else changes. |
| Pop3Laws.RetrMarksSeen | internal/pop3/pop3.go:430-449 | When marking works, the message read gains Seen beside its other flags, its file goes to cur/ under them with its bytes and date, and every other message and file stays. |
| Pop3.PopSession.FlagMarked | internal/pop3/pop3.go:506-517 | The loop flags the marked messages the disk allows, all of them when it allows all, and touches no other file. |
| Pop3.PopSession.CmdQuit | internal/pop3/pop3.go:501-527 | Without login or marks nothing changes; otherwise a successful QUIT removes exactly the flagged marks and the already Deleted messages, and when the disk lets every mark be flagged it is the QUIT the session theorem speaks of. |
| Smtp.StepKeepsInv | internal/smtp/session.go:96-571 | Every command keeps: recipients imply MAIL implies HELO, an identity implies submission under TLS, the sender is the authenticated user, recipients fit the mode and the limit. |
| Smtp.SessionSafe | internal/smtp/session.go:96-571 | So over every command sequence, across RSET, EHLO and STARTTLS. |
| SmtpView.RepliesTellAll | internal/smtp/session.go:96-571 | Over every command sequence, whoever hears the reply codes knows the session: HELO 250, RSET, STARTTLS and a finished DATA (250, 451, 550, 552) clear the transaction, MAIL 250 sets the sender, RCPT 250 adds its resolved recipient, AUTH 235 sets the identity, and nothing else changes any of it. |
| SmtpView.AnswersAreRight | internal/smtp/session.go:96-571 | Over every command sequence, told by the replies before: MAIL is answered 250 if and only if greeted, not nested, with a path and a size that fit and, on submission, from the user logged in; RCPT if and only if MAIL is open, the limits allow it and the address is local with a mailbox or, on submission only, remote; DATA is taken if and only if there are recipients and limits, reputation, transfer and screening allow it; each command has its one final reply and the log holds nothing else. |
| SmtpView.DataTells | internal/smtp/session.go:534-570 | A DATA that is taken shows exactly one event per recipient, in order: failed, enqueued under the sender's name when remote, or delivered to its mailbox when local; and ends in 250 if and only if one was stored, else in 451. |
| SmtpView.RcptTells | internal/smtp/session.go:364-436 | RCPT is answered 250 exactly under its conditions, a resolved local recipient within the limits among them, and then adds exactly that recipient. |
| Smtp.StepShows | internal/smtp/session.go:438-571 | The log only grows, and outside a delivery loop only by replies; a DATA that does not reach the loop never ends in 250 or 451. |
| Smtp.EventsAreSafe | internal/smtp/session.go:319-571 | Over every command sequence an Enqueue happens only on submission, under TLS, with the authenticated user as sender, and a delivery only to a recipient's resolved local mailbox (section 4.1.4 of RFC 5321, section 4.2 of RFC 3207). |
| Smtp.DataReplyTellsTruth | internal/smtp/session.go:534-570 | After DATA a 250 means some recipient was stored and a 451 means none was. |
| Smtp.SmtpSession.CmdHelo | internal/smtp/session.go:149-182 | HELO and EHLO with an argument set the name and reset the transaction. |
| Smtp.SmtpSession.CmdStartTls | internal/smtp/session.go:184-212 | A handshake turns TLS on and resets name and transaction; a failed one closes. |
| Smtp.SmtpSession.CmdAuth | internal/smtp/session.go:216-264 | AUTH is refused outside submission, without TLS, or twice; only a good login sets the identity. |
| Smtp.SmtpSession.CmdMail | internal/smtp/session.go:319-362 | The five refusals in order, then the lowercased sender is set. |
| Smtp.SmtpSession.CmdRcpt | internal/smtp/session.go:364-436 | The refusals in order, relay denied inbound, then one remote or resolved local recipient, trimmed and lowercased, is added. |
| Smtp.SmtpSession.CmdData | internal/smtp/session.go:438-571 | Limits, reputation, transfer, screening and delivery each lead to the specified reply and reset. |
| Smtp.SmtpSession.StoreAll | internal/smtp/session.go:534-549 | The delivery loop tries every recipient once, in order, and counts the successes. |
| Smtp.SmtpSession.Handle | internal/smtp/session.go:96-140 | One turn of the command loop is one step of the session theorem. |

## Left out

- Interleavings inside one `Refresh` (read, scan, write): the code takes no lock there; each call is one step.
- Message objects are values at a position of the snapshot. The code shares pointers to them, so that a flag change through one pointer shows through another is not captured; `SetFlags` takes a position instead of a pointer.
- UidSafety.UidsAreSafe: supposes that UIDNEXT stays below 2^32 during each Refresh (the wrap-around itself is in the assignment), that a fresh UIDVALIDITY is positive and 32-bit, that delivered base names never repeat, and that the folder holds no hidden files; it covers pairs reported by Refresh calls that returned no error, and runs in which no list read breaks off before an entry still needed (UidCut.CutKeepsUids, UidHeader.ShortHeaderKeepsUids and UidFaults.FailedWriteLasts say exactly what happens otherwise).
- ImapView.ClientStaysInStep: other sessions' flag changes and expunges, and failed polls, are outside its runs; ImapFollow.FollowsWhen and ImapBehind.BehindRun say exactly what becomes of the client there.
- Pop3.UntilQuit: one successful PASS and no other session removing or renaming mail; Pop3.QuitAfterRun allows further logins, between which anything may happen to the mail. USER, STLS and the password check are not modelled.
- Guard.LockoutBound: as Logins.LoginMeans, supposes that maxFailures is at least 1 and lockout at least 0, as the configuration demands; logins are serial and the clock never goes back.
- RateLimit.RateBound: as RateLimit.GrantedWhen, supposes that the limit is not negative and the clock never goes back; float64 rounding is not modelled.
- Reputation.CapHolds: as SendingLaws.DayHolds, supposes day1 <= day7 <= full, as the configuration demands; float64 rounding is not modelled and a negative or saturated age does not occur.
- Scheduler.QueueBalances: supposes unique envelope identifiers, store steps that succeed and no crash within an attempt; what holds without them is Scheduler.NothingIsLost.
- Outcomes.BouncedMeans: supposes the same; what holds with faults is Outcomes.BouncedByFile and Outcomes.BouncedOnlyWhen.
- Scheduler.RetriesAreSpaced: supposes the same, and a clock that never goes back; time between the steps is free, so that ticks may come at any distance.
- Retries.QueueDrains: the passes follow one another without mail enqueued in between; Scheduler.QueueBalances covers that.
- Walks.MoveKeepsUid: a move between two folders is a walk of each, Walks.CopiesAreWalk of the destination and Walks.SnapsAreWalk of the source; supposes, as every run does, that the Refreshes on the way have room and read their list far enough.
- Scheduler.Spool.Process: supposes that every .json file is named after its envelope, which holds in every queue a run can reach; foreign files put into the directory by hand are not covered.
- Wildcard.Match: the case-insensitive shortcut of matchPattern for INBOX is not modelled.
- Move.Select: the text of a sequence set is parsed outside; the number 4294967295 stands for * as in the code.
- Parser.ParserUndoesPrinter: literals are read through an abstract function and are not printed; strconv.Atoi's overflow error is not modelled.
- UidList.ReadUidList: header fields are separated by ASCII white space only; Unicode spaces are not modelled.
- UidList.RoundTrip: lines reaching the scanner's limit are outside it, as in the code.
- Failures of os.Chtimes in Append, which the code ignores.
- Files that vanish between listing and stat in Refresh, and missing subdirectories.
- SMTP path and SIZE parsing, the AUTH dialogues, header assembly, screening and signing enter as parameters; only ASCII letters are lowercased and only ASCII white space is trimmed.
- JSON encoding of queue files and of the reputation store: a file is a whole envelope or broken.
- The FETCH responses of STORE and the APPENDUID response code.
- FETCH rendering, SEARCH, STATUS, CREATE, DELETE, SUBSCRIBE and folder listing: wide formatting or easy members.
- Spam scoring, SPF, DKIM, DMARC, password hashing, configuration, reload, sockets, TLS, logging, statistics, the admin interface and diagnostics.
