# Verified model of the acquisition service

This project models the part of Librarry that must not go wrong quietly: the
protocol by which many workers, an operator and a client poller submit a download
to a remote client that may accept an add and then lose the acknowledgement, and
the text formats and small algorithms around it.

The protocol exists twice. `IntentStore.SqlDownloadStore` is the store as a program:
a class whose fields are the tables and whose methods are the transactions and
statements, each proved against what it promises. `Protocol` is the same code as a
state machine that interleaves one statement at a time: any number of workers run
grabs, reconciliations, replays and polls; the claim transaction is eleven steps under
two advisory locks and row locks; leases expire, workers die between any two
statements, acknowledgements are lost, client lists are incomplete, late and drop
tags. `ClaimAlone` shows that the two agree. The results about whole runs
(`ClaimSafety`, `Sends`, `Histories`, `Evidence`, `Receipts`, `Progress`, `Associations`,
`Replays`) quantify over every run of the machine. History variables (`adds`, `receipts`,
`claims`, `issued`, `noted`) record what happened and are never read by a step.

Modules:

| file | content |
|---|---|
| Text, Records | ASCII string helpers; the rows of the tables |
| Downloads, RowHistory | conflict merge, marks, tag restoration, one row's whole history column by column |
| Bookkeeping | the repair transaction and any schedule of repairs |
| Statements, Protocol | single statements; the machine that interleaves them |
| ClaimSafety, CalmSteps, Histories, Sends, Associations | invariants and results over runs |
| Evidence, Receipts, Progress | on what evidence rows change and slots are freed; where receipts come from; locks, and that claims end |
| ClaimRules, ClaimLaws, LinkIndex, Marking, IntentStore | what a claim decides and what that means, the index of a client list, whom a mark means, the store class |
| ClaimAlone, Reconcile | the store's agreement with the machine, the reconcile scan |
| Runs | building a run of the machine step by step |
| Replays | replaying a saved receipt, over every continuation |
| Races | three complete runs: a late poll write, a late replay write, two repairs in two orders |
| Bencode, Identity | bencode recognizer and info span; info hashes and request keys |
| Trackers, TrackerText, TrackerEdits | Transmission tracker lists |
| Calendar, CalendarFeed, CalendarReading | the iCalendar feed, and reading it back |
| Health, HealthRuns | connection checks: the observation, and any number of callers |
| BookSelection | indexed book resolution |
| Isbn | ISBN canonicalization |
| FeedSort | feed order and cut |

Findings, each stated as a lemma:

- `TrackerEdits.AddedIsNormalExactly`: adding trackers to an empty list skips the
  case-insensitive compaction, so one tracker given in two spellings is listed twice
  (`TrackerEdits.AddToEmptyKeepsBothSpellings`); in every other case the result is in
  normal form.
- `Bookkeeping.BooksDependOnOrderExactly`: which books end grabbed may depend on the order
  in which two receipts of one download are repaired. It does exactly when the download
  still takes marks, nothing newer than the older receipt is linked, that receipt is not
  booked, its book is not yet grabbed and may be, and the newer receipt does not mark the
  same book itself. `Bookkeeping.BooksAfterAll` says which books any schedule marks.
  `Races.RepairOrderShows` is a run: an operator attaches a second book's intent to the
  first book's download, and the two orders of the two repairs leave the first book grabbed
  or not. Link, release, booked receipts and events never depend on the order.
- `Replays.ReplayKeepsRowsExactly`: a replay looks for the download's row and writes the
  receipt only if there is none, but the look and the write are two statements. It can
  never reset an existing row exactly when its look found one (or the receipt has no id);
  otherwise some continuation does, and `Replays.ReplayStepExactly` says which step that
  is. `Races.ReplayResetsTheRow` is a run: a finished download goes back to the beginning,
  which the comment at intents.go:265-266 excludes.
- `Associations.TagStaysExactly`: a saved receipt's own tag that is on its download's row
  stays there over every later sequence of lists if and only if every write of the row
  already under way carries it; a list whose links were read before the acceptance does
  not. `Races.LateWriteLosesTheTags` is a run: an active, accepted download loses its
  intent and book tags and no longer stops a claim for its book.
  `Associations.WriteDecidesTags` says exactly which tags one write leaves.
- `Isbn.NeighbourSwapExactly`: the thirteen-digit check misses a swap of unlike neighbours
  exactly when both stand behind the three-digit prefix and differ by five
  (`Isbn.UnnoticedSwap` is a pair of books); the ten-digit check misses no swap.
- `TrackerText.RoundTripExactly`: a printed tracker list reads back as its normal form
  if and only if no kept URL has a newline inside (`TrackerText.InnerNewlineIsLost` is a
  list that does not).

## Model

| member | source | states |
|---|---|---|
| ClaimSafety.OneLiveIntentPerKey | backend/internal/acquisition/intents_store.go:107-222 | in every reachable state of every run, two live intents with the same scope key or the same request key are one intent, with the claim split into lock, read, retire and insert steps and every lock-free statement running in between |
| ClaimSafety.StepKeepsClaimInv | backend/internal/acquisition/intents_store.go:113-195 | any step of anyone keeps live rows unique and keeps true what every claim under way has read so far, because of the locks it holds |
| ClaimSafety.CommitKeepsUnique | backend/internal/acquisition/intents_store.go:148-157 | at its insert a claim has excluded every other live row of its scope and of its request, so the two unique indexes are never hit |
| ClaimSafety.RowEffectKeepsKnowledge | backend/internal/acquisition/intents_store.go:197-222 | accept, uncertain, recover, release and finalize, run without advisory locks, invalidate no claim's earlier reads |
| ClaimSafety.QuietStepEffect | backend/internal/acquisition/intents.go:101-140 | sending, listing, link queries, row writes and replays change no intent row and touch no claim |
| Progress.LocksEndWithTheirClaim | backend/internal/acquisition/intents_store.go:107-195 | in every state of every run an advisory lock or a row lock is held by a worker in the midst of a claim, so a claim that committed, gave up or died holds none |
| Progress.ClaimEnds | backend/internal/acquisition/intents_store.go:107-195 | from any state of any run in which nobody else is in a claim, at most ten statements of the worker bring its claim to its commit or its answer, and no lock is left |
| Progress.OperatorCanRelease | backend/internal/acquisition/intents_store.go:218-222 | in every state of every run the operator can let an open row go whose lease is over and that no claim has locked |
| Progress.CreatedInThePast | backend/internal/acquisition/intents_store.go:189-195 | no intent's creation time is later than the clock, and none ever changes |
| Sends.AtMostOneSubmissionPerRelease | backend/internal/acquisition/intents.go:101-140 | in every run the Add calls for a request key, and for a scope, number at most one plus that key's intents that moved to released |
| Sends.EachIntentSentOnce | backend/internal/acquisition/intents.go:101-125 | an intent is sent at most once, and only after its claim committed |
| Sends.SendBudget | backend/internal/acquisition/intents.go:189-295 | over any stretch of a run the Add calls are bounded by the senders waiting at its start plus the intents inserted in it, so reconciling, replaying, polling, lease expiry and crashes never send |
| Sends.IntentsAreConserved | backend/internal/acquisition/intents_store.go:148-195 | in every run the claims ever committed number exactly the live intents plus the released ones; no intent is lost and none returns from released |
| Histories.ReceiptsWrittenOnce | backend/internal/acquisition/intents_store.go:206-222 | released is absorbing, accepted leads only to released, and at most one accept ever succeeds per intent, after which its external id and receipt never change |
| Histories.RowEvolvesAt | backend/internal/acquisition/intents_store.go:107-222 | over any step of any run every intent row is still there and has changed in one of six listed ways or not at all |
| Histories.OperatorNeverReleasesAReceipt | backend/internal/acquisition/intents_store.go:218-222 | an operator release only ever hits a row without a receipt and leaves every receipt as it was |
| Histories.ReplacedTokensAreFenced | backend/internal/acquisition/intents_store.go:206-217 | once a token is not the row's token, no accept and no uncertain report by its holder changes anything, in any later state |
| Histories.RecoveryReplacesTheToken | backend/internal/acquisition/intents_store.go:197-205 | a recovery claim leaves every token issued before it dead |
| Histories.BookkeepingExactlyOnce | backend/internal/acquisition/bookkeeping.go:51-73 | across crashes and retries an intent that requires bookkeeping has one release_grabbed event when its bookkeeping time is set and none otherwise, so one if it was accepted and later released |
| Histories.RecoveriesArePaced | backend/internal/acquisition/intents_store.go:197-217 | in every run any stretch of an intent's claims, from the m-th to the n-th recovery, takes at least the sum of min(120 s, backoff(k)) for k = m+1..n, whether workers report or die holding the lease |
| Statements.BackoffRange | backend/internal/acquisition/intents_store.go:214-217 | the backoff is 5, 10, 20, 40, 80 and 160 seconds for the first six attempts and 300 from the seventh on |
| Associations.WrittenDownloadsKeepTheirReceipts | backend/internal/acquisition/intents_store.go:241-277 | in every reachable state a written download carries the intent and book tags of every receipt, accepted or released, its last link query returned |
| Associations.ReceiptsAreNoted | backend/internal/acquisition/intents_store.go:259-277 | the link query of a list notes every receipt of every listed download |
| Associations.TagStaysExactly | backend/internal/acquisition/intents_store.go:241-277 | a saved receipt's own tag on its download's row survives every continuation, whatever its lists drop, if and only if every write of the row already under way carries it |
| Associations.AssociationIsDurable | backend/internal/acquisition/intents_store.go:241-277 | once a receipt's tags are on the row and on every write of it under way, or the row was written with the receipt known and no older list is pending, no later sequence of client lists, whatever tags they drop, takes its intent and book tags off the row |
| Associations.BoundIsHeld | backend/internal/acquisition/intents_store.go:241-277 | a row last written with a receipt known, every pending write of it knowing the receipt too, has both of the receipt's tags on the row and on those writes |
| Associations.ActiveDownloadBlocksItsBook | backend/internal/acquisition/intents_store.go:158-175 | such a download, listed as neither removed, failed nor imported, stops every claim for its book at the check, even after its intent was released |
| Associations.ListedAgainBlocks | backend/internal/acquisition/intents_store.go:158-175 | from then on a list that shows the download as active stops every claim for its book at its check, however tags were dropped in between and whatever became of the intent |
| Associations.WriteDecidesTags | backend/internal/acquisition/store.go:34-111 | after a pending row is written a tag is on it if and only if the client listed it or a receipt the link query returned brought it, so a write from before the acceptance loses it |
| Races.LateWriteLosesTheTags | backend/internal/acquisition/intents_store.go:241-277 | a complete run whose accepted, active download loses its intent and book tags to a poll that read its links before the acceptance, so that the book check no longer stops a claim |
| IntentStore.SqlDownloadStore.ClaimAcquisition | backend/internal/acquisition/intents_store.go:107-195 | a claim is granted if and only if no live row of its scope or request blocks it and book and release are in order; it then retires exactly the rows it may, each an accepted and settled receipt whose download is removed or failed, or imported while another release of the scope is asked for, and inserts one; otherwise nothing changes and the answer is the scope's row, else a refusal for the request's, else the first objection to book or release |
| ClaimLaws.RetiredOnEvidence | backend/internal/acquisition/intents_store.go:119-150 | a claim retires a row if and only if it is an accepted receipt owing no bookkeeping whose download was removed or failed, or is imported while another release of the same scope is asked for |
| ClaimLaws.FreedOnEvidence | backend/internal/acquisition/intents_store.go:119-157 | a granted claim leaves every other row as it was, except that every live row of its scope or request is released, each on that evidence |
| ClaimLaws.HandedBackExactly | backend/internal/acquisition/intents_store.go:119-144 | a row is handed back exactly when it holds the scope without such evidence and is no receipt yet or one of the same request |
| ClaimLaws.BookOpenExactly | backend/internal/acquisition/intents_store.go:158-175 | a book may be claimed exactly when it is listed, neither removed nor ignored, watched or asked for by hand, and every download with its tag is removed, failed or imported |
| ClaimLaws.InsertedExactly | backend/internal/acquisition/intents_store.go:185-195 | the inserted row is a submission under a two-minute lease for the book's format and the release's details |
| ClaimLaws.RefusalsMean | backend/internal/acquisition/intents_store.go:133-184 | what each refusal says about the tables |
| ClaimLaws.RefusalOrder | backend/internal/acquisition/intents_store.go:158-184 | when no row is in the way, which refusal it is: missing book, ineligible book, running download, release without a book, release not of the book, in this order |
| Evidence.SlotFreedOnEvidence | backend/internal/acquisition/intents_store.go:107-222 | over every step of every run a slot is freed only by the operator, and not under a running lease, or by a claim of its scope or request that saw in some earlier state that the receipt's download is removed, failed, or imported while another release was asked for |
| Evidence.RowChangesLawfully | backend/internal/acquisition/intents_store.go:107-222 | over every step of every run a row changes by one listed statement whose conditions, written in the row's own columns, held, and to exactly the columns that statement writes |
| Evidence.RunningLeaseHoldsTheSlot | backend/internal/acquisition/intents_store.go:218-222 | over every step of every run an open row whose lease still runs is not released |
| Evidence.JudgedOnEvidence | backend/internal/acquisition/intents_store.go:119-144 | the machine's judgement of the scope's receipt lets it go exactly on that evidence |
| Evidence.RetiredByRequestOnEvidence | backend/internal/acquisition/intents_store.go:148-150 | the machine retires by request exactly the settled receipts whose download was removed or failed |
| Evidence.RecoverExactly | backend/internal/acquisition/intents_store.go:197-205 | the machine's recovery claim takes effect exactly on an open row whose lease and next check have passed |
| Evidence.AcceptExactly | backend/internal/acquisition/intents_store.go:206-213 | the machine's acceptance takes effect exactly under the row's own token while its lease runs |
| Evidence.AcceptGoesOn | backend/internal/acquisition/intents.go:156-165 | a worker told that its receipt was saved goes on to store that download; one not told, whether or not it was saved, reports the intent uncertain |
| Evidence.UncertainExactly | backend/internal/acquisition/intents_store.go:214-217 | the machine's uncertain report takes effect exactly under the row's own token |
| ClaimRules.JudgeScope | backend/internal/acquisition/intents_store.go:119-144 | the claim goes on exactly when the scope's live row, if any, may be retired; otherwise the row is handed back, or the claim is refused when it is another release's receipt |
| ClaimRules.RetireRows | backend/internal/acquisition/intents_store.go:148-157 | computes exactly the rows the claim retires, and whether another live row of the request is left |
| ClaimRules.CheckBook | backend/internal/acquisition/intents_store.go:158-184 | returns the first objection to the book or release, in the transaction's order, or the candidate with the book's format and the release's details |
| ClaimRules.CommitUnique | backend/migrations/0036_acquisition_request_identity.sql:1-3 | committing a claim nothing blocks keeps both partial unique indexes |
| IntentStore.SqlDownloadStore.ClaimAcquisitionRecovery | backend/internal/acquisition/intents_store.go:197-205 | succeeds exactly on an open row whose lease and next check have passed, and then changes only that row: new token, new lease, one more attempt |
| IntentStore.SqlDownloadStore.AcceptAcquisition | backend/internal/acquisition/intents_store.go:206-213 | succeeds exactly while the caller's token is the row's and its lease runs, and then writes receipt and external id and clears the lease |
| IntentStore.SqlDownloadStore.UncertainAcquisition | backend/internal/acquisition/intents_store.go:214-217 | succeeds exactly while the caller's token is the row's, expired or not, and schedules the next check |
| IntentStore.SqlDownloadStore.ReleaseAcquisition | backend/internal/acquisition/intents_store.go:218-222 | succeeds exactly on a submitting or uncertain row with no lease or one that has run out, and then only releases it |
| IntentStore.SqlDownloadStore.FinalizeAcquisition | backend/internal/acquisition/bookkeeping.go:13-73 | its outcome and its new tables are those of the repair function the bookkeeping results are about |
| IntentStore.SqlDownloadStore.LinkDownload | backend/internal/acquisition/bookkeeping.go:38-50 | links the download and marks the book, unless a newer receipt owns the download |
| IntentStore.SqlDownloadStore.RestoreAcquisitionLinks | backend/internal/acquisition/intents_store.go:243-277 | rewrites every listed download's tags in place to what it listed followed by every receipt the query returned for its state key |
| LinkIndex.IndexByKey | backend/internal/acquisition/intents_store.go:248-254 | the index holds for each state key exactly the positions that have it, each once |
| IntentStore.SqlDownloadStore.UpsertDownloads | backend/internal/acquisition/store.go:34-111 | after restoring the tags, the rows are those of writing the restored list in order; what a row then shows is what the row-history results say |
| IntentStore.SqlDownloadStore.ExecDownloadMutation | backend/internal/acquisition/store.go:318-336 | a mark takes effect exactly when one row carries the id in the named client, in any letter case, or in any client if none is named, and then on that row alone |
| Marking.MeansExactly | backend/internal/acquisition/store.go:318-336 | an id means a row exactly when no other row carries it in the named client, in any letter case, or in any client if none is named |
| IntentStore.SqlDownloadStore.MarkDownloadsDeleted | backend/internal/acquisition/store.go:192-206 | marks the ids in turn, stops at the first that is missing or ambiguous; exactly the rows the ids before it mean end removed and seen now, with every other column as it was |
| ClaimAlone.AgreesWithTransaction | backend/internal/acquisition/intents_store.go:107-195 | a claim of the machine that nobody interrupts commits exactly what the store's claim commits; it gives up only when that claim is not granted, and then goes on with the row the store's answer hands back or ends |
| ClaimAlone.StageKept | backend/internal/acquisition/intents_store.go:113-184 | each statement of an uninterrupted claim leaves the tables alone, stops the claim only if it could not have been granted, and then moves on as the store's answer says |
| Reconcile.UniqueMatch | backend/internal/acquisition/intents.go:234-256 | the scan finds a download exactly when one listed download is the intent's, by client and named id, or info hash in any letter case, or the intent's own tag, and then that one |
| Reconcile.ConclusiveExactly | backend/internal/acquisition/intents.go:234-256 | the filter the machine uses has one element exactly when one position alone matches |
| Reconcile.ConclusiveMeans | backend/internal/acquisition/intents.go:234-256 | what a match is: a download of the intent's client with the named id or, if none is named, with the intent's info hash as its id in any letter case, or with its own tag |
| Receipts.AddSettles | backend/internal/acquisition/intents.go:118-140 | after the one call a reply with a real download id is saved, its name replaced when it is a URL; another reply is looked up, and a failed call is reported uncertain |
| Receipts.ListSettles | backend/internal/acquisition/intents.go:210-263 | looking a download up sends and writes nothing; the receipt is the one listed download that is the intent's with its association added, and a changed endpoint, a failed list, no match or several leave the intent uncertain |
| Receipts.ClaimedCarries | backend/internal/acquisition/intents.go:257-263 | the receipt of a matched download carries what the client listed, the service's tag, the intent's and the book's, and no more |
| Receipts.ReceiptHasASource | backend/internal/acquisition/intents.go:118-263 | every receipt about to be saved in any run was put there by one Add reply or one client list for the same intent |
| Receipts.MeetsExisting | backend/internal/acquisition/intents.go:101-117 | a claim that meets a live row of its scope sends nothing: it turns to that row if it is its own request's, and otherwise gives up |
| Receipts.MeetsReceipt | backend/internal/acquisition/intents.go:101-117 | a claim that meets a receipt still holding its book replays it if it is its own request's, and otherwise gives up |
| Bookkeeping.RepairsConfluent | backend/internal/acquisition/bookkeeping.go:29-50 | two repair schedules over the same receipts of one download, in any order and with any repetitions, agree on link, release, booked receipts and event counts, and the link is the greatest receipt by (created_at, id) |
| Bookkeeping.LinkAfterAll | backend/internal/acquisition/bookkeeping.go:29-42 | after any schedule the download is linked to the greatest repaired receipt, unless an even later one was linked before, and shows that receipt's release |
| Bookkeeping.BookAfterAll | backend/internal/acquisition/bookkeeping.go:43-49 | for one book and receipts not yet booked, any order and repetition of repairs gives the book the same status |
| Bookkeeping.BookStatusRules | backend/internal/acquisition/bookkeeping.go:38-50 | no repair overwrites an imported, removed or ignored book or acts for an older receipt once a newer one is linked; the only change is to grabbed |
| Bookkeeping.LinkIsGreatest | backend/internal/acquisition/bookkeeping.go:29-42 | written in creation times and ids: after any schedule no repaired receipt and no earlier link is behind the final link |
| Bookkeeping.RepairedLink | backend/internal/acquisition/bookkeeping.go:29-42 | a receipt behind the linked one by creation time, then id, changes neither link, release nor any book; any other takes the download, with its release if that is the book's |
| Bookkeeping.RepairedBook | backend/internal/acquisition/bookkeeping.go:38-50 | the status of every book after one repair: grabbed for the book of an unbooked receipt that takes a running download, unless that book is imported, removed or ignored, and otherwise unchanged |
| Bookkeeping.RepairedEvent | backend/internal/acquisition/bookkeeping.go:51-73 | the one event of a repair and everything it names, or none when it was written before |
| Bookkeeping.BooksAfterAll | backend/internal/acquisition/bookkeeping.go:38-50 | after any schedule of repairs of one download a book is grabbed by it exactly when some call names an unbooked receipt of the book that neither the original link nor an earlier call outranks, the download being neither removed, imported nor failed; every other book keeps its status |
| Bookkeeping.BooksDependOnOrderExactly | backend/internal/acquisition/bookkeeping.go:38-50 | for any two receipts of one download the two orders of repair leave different books exactly when the older one would mark a book that is free to be marked, no newer link stands, and the newer one does not mark the same book |
| Races.RepairOrderShows | backend/internal/acquisition/bookkeeping.go:29-50 | a complete run to two pending repairs of one download, an operator having attached a second book's intent to it, and both continuations: the first book ends grabbed in one and not in the other |
| Bookkeeping.FinalizeKeepsExactlyOnce | backend/internal/acquisition/bookkeeping.go:51-73 | a repair, however often repeated, keeps one event per booked receipt |
| Replays.ReplayKeepsRowsExactly | backend/internal/acquisition/intents.go:265-279 | no continuation of a replay lets its own steps change what an existing row shows, if and only if its look found the receipt's row or the receipt has no id |
| Replays.ReplayStepExactly | backend/internal/acquisition/intents.go:267-279 | if the look found the row, no step of the replay changes anything an observation sets on any row; in any case live fields, state, progress and tags change exactly at the late write of a receipt over a row that came in since and shows something else |
| Replays.ReplayPlace | backend/internal/acquisition/intents.go:267-279 | whatever everyone else does, a replay whose look found the row only repairs, and one whose look did not only reads links, writes the receipt and repairs |
| Races.ReplayResetsTheRow | backend/internal/acquisition/intents.go:265-277 | a complete run in which a replay's look finds no row, a poll stores the finished download, and the replay's write puts the row back to its receipt |
| Downloads.ImportedExactly | backend/internal/acquisition/store.go:86-90 | over any interleaving of observations and marks a row is imported exactly when its last import mark is newer than every recorded import error |
| Downloads.FailedExactly | backend/internal/acquisition/store.go:208-240 | a row is failed exactly when the last thing that failed it is newer than every explicit clear |
| Downloads.RetriesNeverFall | backend/internal/acquisition/store.go:96-96 | retry counts never fall, count every recorded replacement and never go below what a list reported |
| Downloads.LinksAreLocal | backend/internal/acquisition/store.go:66-101 | observations and marks never touch the acquisition or release link, and marks never touch tags |
| Downloads.RowShowsTheNewest | backend/internal/acquisition/store.go:66-81 | live fields, progress and tags are those of the newest observation, whatever marks follow |
| Downloads.DatesStay | backend/internal/acquisition/store.go:82-84 | a known added, completed or activity date stays until an observation reports a newer one |
| Downloads.UpsertAllIsReplay | backend/internal/acquisition/store.go:41-111 | writing a list touches exactly the rows it names, each as that many observations in list order |
| RowHistory.NewestWriteStands | backend/internal/acquisition/store.go:66-101 | over any interleaving of observations and marks each column shows what the newest operation that wrote it wrote |
| RowHistory.UnwrittenStays | backend/internal/acquisition/store.go:66-101 | a column no operation wrote is as it was |
| RowHistory.ReadyExactly | backend/internal/acquisition/store.go:86-90 | a row is ready to import exactly when its last finished report, taken while neither imported nor in error, is newer than every import and error mark |
| RowHistory.ErrorExactly | backend/internal/acquisition/store.go:86-90 | a row is in import error exactly when its last error mark is newer than every import mark and every clear |
| RowHistory.FinishedIsReady | backend/internal/acquisition/store.go:86-90 | a download reported as finished is ready to import, unless it is imported or in error, and stays so until it is marked |
| RowHistory.FirstEntryInserts | backend/internal/acquisition/store.go:49-65 | the first entry of a download inserts its row as listed, with the client's own import text, else ready or pending |
| RowHistory.EntryNames | backend/internal/acquisition/store.go:42-48 | an entry names the row of its trimmed client and its id; a blank client means qBittorrent, a blank id no row |
| RowHistory.NewRowIsReplay | backend/internal/acquisition/store.go:41-111 | a list that names a new row inserts its first entry and observes the others in order |
| Downloads.LinkedContents | backend/internal/acquisition/intents_store.go:264-275 | a restored tag list holds exactly what the client listed and what the returned receipts contribute |
| Downloads.LinkedKeepsTag | backend/internal/acquisition/intents_store.go:264-275 | every returned receipt of a listed download leaves its intent and book tags on it, in whatever order the query returned them |
| Downloads.RestoredTags | backend/internal/acquisition/intents_store.go:264-275 | a restored list holds exactly what the client listed, the service's tag, and the intent and book tags of every returned receipt with the download's state key |
| Downloads.LinkQueryExactly | backend/internal/acquisition/intents_store.go:259-259 | the query returns exactly the receipts, accepted or released, of the listed downloads |
| Bencode.ParseBencodeElement | backend/internal/acquisition/torrent.go:61-79 | the recursive recognizer terminates and ends where the element function of the grammar results says, strictly later and within the data |
| Bencode.ParseBencodeDictionary | backend/internal/acquisition/torrent.go:122-141 | the dictionary loop ends where the entries function says |
| Bencode.ParseBencodeString | backend/internal/acquisition/torrent.go:143-161 | the length loop accepts exactly a decimal prefix, a colon and that many bytes |
| Bencode.RecognizesExactlyTheGrammar | backend/internal/acquisition/torrent.go:61-161 | the recognizer ends at a position exactly when the bytes up to it derive from the accepted grammar |
| Bencode.PrefixFree | backend/internal/acquisition/torrent.go:61-161 | no encoding of an element is a proper prefix of another |
| Bencode.SuffixIrrelevant | backend/internal/acquisition/torrent.go:61-161 | appending anything never changes where a recognized element ends |
| Bencode.EncodedValueParses | backend/internal/acquisition/torrent.go:61-161 | a value encoded as BEP 3 prescribes, anywhere in any data, parses to exactly its encoding |
| Bencode.TorrentInfoSpan | backend/internal/acquisition/torrent.go:34-59 | the loop computes the span function of the results below |
| Bencode.InfoBytesExact | backend/internal/acquisition/torrent.go:34-59 | for any dictionary with entries before its first info key and anything after its value, the span is exactly the bytes of that value |
| Bencode.InfoSpanSound | backend/internal/acquisition/torrent.go:34-59 | whenever a span is returned, the data is a dictionary prefix whose first info value it is |
| Bencode.InfoHashStable | backend/internal/acquisition/torrent.go:11-18 | the v1 hash is the same whatever entries stand before the info value and whatever follows it |
| Identity.Base32RoundTrip | backend/internal/acquisition/intents.go:37-41 | decoding undoes encoding for every 20-byte hash, regrouping 160 bits by five and by eight |
| Identity.Base32RoundTripBack | backend/internal/acquisition/intents.go:37-41 | encoding undoes decoding for every 32 alphabet symbols |
| Identity.CanonicalExactly | backend/internal/acquisition/intents.go:37-48 | a value has the identity of a hash if and only if it spells that hash in base32 or hex, in any letter case |
| Identity.IdentityIsAHash | backend/internal/acquisition/intents.go:42-48 | every non-empty identity is the 40-digit lower-case hex form of a 20-byte hash the value spells |
| Identity.CanonicalIdempotent | backend/internal/acquisition/intents.go:37-48 | an identity is its own identity |
| Identity.DistinctHashesDistinctIdentities | backend/internal/acquisition/intents.go:37-48 | spellings of two hashes share an identity exactly when the hashes are equal |
| Identity.TorrentIdentity | backend/internal/acquisition/intents.go:22-49 | the code's choice between upload, magnet and info hash field computes the identity function |
| Identity.UploadIdentity | backend/internal/acquisition/intents.go:22-28 | a torrent file, with any entries before its first info value and anything behind it, has the hash of the info bytes as its identity, whatever the URL and the info hash field hold |
| Identity.UploadReadExactly | backend/internal/acquisition/intents.go:24-28 | an upload yields a hash exactly when it is such a file |
| Identity.MagnetIdentity | backend/internal/acquisition/intents.go:22-36 | a magnet link has the identity of the hash its first urn:btih parameter spells, whatever the case of the urn, whatever other parameters stand before or behind it, and whatever the info hash field and an unreadable upload hold |
| Identity.BareIdentity | backend/internal/acquisition/intents.go:22-36 | without a urn:btih parameter and a readable upload, a bare info hash has its hash's identity, whatever spaces surround it |
| Identity.RequestKeyExactly | backend/internal/acquisition/intents.go:86-90 | two requests share a request key exactly when client, endpoint and payload agree, for an injective hash |
| Identity.ScopeKeyExactly | backend/internal/acquisition/intents.go:94-97 | scope keys agree exactly for the same book, or for the same request when neither has a book; the two kinds never meet |
| Identity.SameHashSameKey | backend/internal/acquisition/intents.go:86-90 | any two spellings of one hash give one request key per client endpoint, and other hashes give others |
| Identity.WholeRequestKeyExactly | backend/internal/acquisition/intents.go:86-90 | two whole requests share a request key exactly when client and endpoint agree, the identities agree and, where there is none, URL and upload agree; for an injective key hash none of whose outputs has forty symbols, and URLs without NUL |
| Identity.MagnetAndBareShareTheirKey | backend/internal/acquisition/intents.go:22-49 | whole requests, a magnet link with its urn:btih parameter anywhere and a bare info hash however spelled, get one request key exactly when they name the same hash |
| Identity.UploadAndMagnetShareTheirKey | backend/internal/acquisition/intents.go:22-49 | a torrent file and a magnet link get one request key exactly when the file's info bytes have the magnet's hash |
| Identity.UploadsShareTheirKey | backend/internal/acquisition/intents.go:22-49 | two torrent files get one request key exactly when their info bytes have one hash, whatever else they hold |
| Identity.UuidExactly | backend/internal/acquisition/intents.go:15-15 | what a book id in a wanted tag looks like, character by character |
| Identity.AcceptedIdentityExactly | backend/internal/acquisition/intents.go:141-146 | a torrent client's id is accepted exactly when it spells a 20-byte hash, SABnzbd's exactly when it is not all spaces, any other client's never |
| Records.IntentTagInjective | backend/internal/acquisition/intents.go:242-246 | a listed intent tag names at most one intent |
| Identity.WantedFromTags | backend/internal/acquisition/intents.go:68-80 | a request targets a book exactly when all its wanted tags name that one book; a malformed tag or two books are refused, with the reason |
| Trackers.CompactTiers | backend/internal/acquisition/transmission.go:1359-1377 | the two nested loops compute the compaction function |
| Trackers.CompactIsNormal | backend/internal/acquisition/transmission.go:1359-1377 | compaction gives tidy URLs, no two alike ignoring case, in non-empty tiers, and leaves such a list alone |
| Trackers.CompactKeepsFirsts | backend/internal/acquisition/transmission.go:1359-1377 | across all tiers and in order it keeps exactly the first URL of each key |
| Trackers.CompactList | backend/internal/acquisition/qbittorrent.go:1361-1373 | the loop computes the exact-match compaction |
| Text.CompactContents | backend/internal/acquisition/qbittorrent.go:1361-1373 | what it keeps is every trimmed non-blank value |
| Text.CompactOrder | backend/internal/acquisition/qbittorrent.go:1361-1373 | no value is kept twice, and the kept ones stand in the order of their first occurrences |
| TrackerText.ParseTrackerList | backend/internal/acquisition/transmission.go:1221-1239 | the line loop computes the parse function |
| TrackerText.FormatTrackerList | backend/internal/acquisition/transmission.go:1347-1357 | the block loop computes the print function |
| TrackerText.BlankLineSplits | backend/internal/acquisition/transmission.go:1224-1234 | a line of nothing but spaces ends a tier, and both sides are read on their own |
| TrackerText.RunIsATier | backend/internal/acquisition/transmission.go:1233-1238 | lines that all hold something are one tier |
| TrackerText.PrintedLines | backend/internal/acquisition/transmission.go:1347-1357 | what is printed: one line for each URL of the normal form and one empty line between two tiers |
| TrackerText.RoundTripExactly | backend/internal/acquisition/transmission.go:1221-1239 | printing and reading back gives the normal form if and only if no kept URL has a newline inside |
| TrackerText.InnerNewlineIsLost | backend/internal/acquisition/transmission.go:1221-1239 | a tracker list in normal form that does not survive printing and reading |
| TrackerText.ReadingIsStable | backend/internal/acquisition/transmission.go:1347-1357 | whatever text was read, printing and reading again changes nothing more |
| TrackerEdits.AddTrackers | backend/internal/acquisition/transmission.go:1285-1304 | the loop extends the last tier by exactly the additions whose key is new |
| TrackerEdits.AddedKeys | backend/internal/acquisition/transmission.go:1285-1304 | afterwards exactly the trackers listed before or asked for are listed |
| TrackerEdits.AddedGoesLast | backend/internal/acquisition/transmission.go:1285-1304 | new trackers go to the end of the last tier in order, every other tier stays as it is, and an empty list becomes one tier of the additions |
| TrackerEdits.AddedIsNormalExactly | backend/internal/acquisition/transmission.go:1291-1293 | the result is in normal form exactly when the list had a tracker or no two additions differ in case alone |
| TrackerEdits.AddToEmptyKeepsBothSpellings | backend/internal/acquisition/transmission.go:1291-1293 | a concrete input where it is not |
| TrackerEdits.RemoveTrackers | backend/internal/acquisition/transmission.go:1324-1345 | the loops drop exactly the named keys and report whether any was listed |
| TrackerEdits.RemovedExactly | backend/internal/acquisition/transmission.go:1324-1345 | exactly the named trackers go, in every spelling; the others keep order and first spelling |
| TrackerEdits.RemoveUndoesAdd | backend/internal/acquisition/transmission.go:1285-1345 | removing just-added fresh trackers gives any normal list back, the empty one included, whatever their spelling or repetition |
| TrackerEdits.ReplaceTracker | backend/internal/acquisition/transmission.go:1306-1322 | writes the new URL over every spelling of the original in place and reports whether there was one; blank arguments change nothing |
| TrackerEdits.ReplacedExactly | backend/internal/acquisition/transmission.go:1306-1322 | the result is in normal form and lists the new tracker, not the old one unless they are spellings of one another, and otherwise what was listed |
| TrackerEdits.ReplacedSpelling | backend/internal/acquisition/transmission.go:1306-1322 | the new tracker appears as given unless the list already had it |
| TrackerEdits.UniqueInNormal | backend/internal/acquisition/transmission.go:1359-1377 | in normal form a listed tracker is listed once |
| Calendar.EscapeRoundTrip | backend/internal/api/calendar.go:157-167 | un-escaping per section 3.3.11 of RFC 5545 undoes escaping for every text, up to CRLF becoming LF |
| Calendar.EscapeExactly | backend/internal/api/calendar.go:157-167 | two texts print alike exactly when they differ only in CRLF against LF |
| Calendar.EscapedHasNoLineFeed | backend/internal/api/calendar.go:157-167 | no escaped text contains a line feed |
| Calendar.EscapedSeparators | backend/internal/api/calendar.go:158-167 | in an escaped text every comma and semicolon stands behind a backslash |
| Calendar.NextDayIsNext | backend/internal/api/calendar.go:147-147 | the end date is an existing day, one after the start, across months, years and leap days |
| CalendarFeed.StartsAsStored | backend/internal/api/calendar.go:135-146 | an event starts on the stored date, digit for digit |
| CalendarFeed.DateExactly | backend/internal/api/calendar.go:135-138 | a stored text is a date exactly when it is four, two and two digits between dashes and names a day that exists |
| CalendarFeed.DateReadsBack | backend/internal/api/calendar.go:146-147 | a printed date is eight digits that read back as the date |
| CalendarFeed.StampReadsBack | backend/internal/api/calendar.go:133-133 | a stamp is a date, a T, two digits each for hour, minute and second, and a Z |
| CalendarFeed.RenderCalendarICS | backend/internal/api/calendar.go:121-155 | the line writer emits exactly the lines of the feed, in order, skipping items without a valid date |
| CalendarReading.FeedSplitsIntoItsLines | backend/internal/api/calendar.go:121-155 | splitting the feed at CRLF gives back exactly the emitted lines, whatever titles and authors contain |
| CalendarReading.FeedReadsBack | backend/internal/api/calendar.go:121-167 | a reader that splits at CRLF, cuts at the first colon and collects what BEGIN and END enclose gets exactly one event per item with a valid date, in order, with the stored texts up to line-break spelling |
| CalendarReading.FeedFrame | backend/internal/api/calendar.go:127-153 | the lines around the events |
| Health.IntegrationObservation.Begin | backend/internal/acquisition/health.go:76-99 | the first critical section answers exactly when unconfigured, cancelled, within 15 seconds of the last record or before its retry-after; else it waits for the running probe or starts one |
| Health.IntegrationObservation.Finish | backend/internal/acquisition/health.go:103-125 | the last one records unless cancelled, with success and version kept when the probe brings none, and always stops and closes the channel that was running |
| Health.IntegrationObservation.Look | backend/internal/acquisition/health.go:51-74 | computes the snapshot without changing anything |
| Health.SnapshotMeans | backend/internal/acquisition/health.go:51-74 | freshness, status and observed status of a snapshot, for every stored evidence and time |
| Health.SnapshotKeeps | backend/internal/acquisition/health.go:51-74 | a snapshot replaces nothing but status and message, and a fresh one not even these |
| HealthRuns.OneProbeAtATime | backend/internal/acquisition/health.go:76-126 | in every run at most one caller probes, no channel is closed twice, and every waiter's channel is the running one or already closed |
| HealthRuns.ChannelsCloseExactlyOnce | backend/internal/acquisition/health.go:97-122 | in every run each channel made is either the running one, not closed yet, or closed exactly once, and they close in the order they were made |
| HealthRuns.RecordsAreRateLimited | backend/internal/acquisition/health.go:81-85 | any window of a run holds at most one plus its length over 15 seconds recorded checks |
| HealthRuns.ProbesAreDue | backend/internal/acquisition/health.go:81-85 | no probe starts within 15 seconds of the last record or before the retry-after it recorded |
| HealthRuns.NobodyIsStuck | backend/internal/acquisition/health.go:86-122 | from any state of any run a probing caller can end its probe, and a waiting one goes on, without giving up, once the one probe it waits for has ended |
| HealthRuns.FinishRecords | backend/internal/acquisition/health.go:103-122 | a probe that ends closes its own channel and is recorded at that moment, unless it was cancelled |
| HealthRuns.ProbeStartsExactly | backend/internal/acquisition/health.go:81-99 | in every run a check starts a probe exactly when configured, not cancelled, nobody else is probing, the last recorded check is 15 seconds old and its retry-after has passed |
| HealthRuns.EvidenceIsHistory | backend/internal/acquisition/health.go:104-120 | the stored evidence is the fold of all uncancelled results: the newest result's status, message, retry-after and time, and last success and version of the newest ready and the newest versioned one |
| HealthRuns.ReadyIsCurrent | backend/internal/acquisition/health.go:51-74 | a snapshot says ready exactly when the adapter is configured and the newest record is a ready one at most ten minutes old |
| BookSelection.ResolveCompatBooks | backend/internal/api/compat_book_selection.go:21-62 | the three-index resolver computes what a linear scan of the library specifies |
| BookSelection.BuildIndexes | backend/internal/api/compat_book_selection.go:22-37 | each index holds for every key what a scan finds, in library order, an alias shared by two fields once |
| BookSelection.AllOrNothing | backend/internal/api/compat_book_selection.go:50-55 | a request succeeds exactly when every id names one book |
| BookSelection.ReportsFirstFailure | backend/internal/api/compat_book_selection.go:50-55 | a failed request reports the first id that does not, as missing or ambiguous |
| BookSelection.OnceInOrder | backend/internal/api/compat_book_selection.go:56-60 | a granted request returns each book once, in order of first request |
| BookSelection.FoundById | backend/internal/api/compat_book_selection.go:24-55 | an id in any letter case that is a visible book's names it, unless another visible book has it too |
| BookSelection.FoundByNumber | backend/internal/api/compat_book_selection.go:43-55 | when no visible book has it as its id it may be the number of one |
| BookSelection.FoundByAlias | backend/internal/api/compat_book_selection.go:46-55 | and when it is no number of one either, a work, an edition or a source of one |
| BookSelection.MissingExactly | backend/internal/api/compat_book_selection.go:40-52 | an id that is none of these names nothing |
| BookSelection.OrderIndependent | backend/internal/api/compat_book_selection.go:21-62 | the answer does not depend on the order of the library, even when numeric ids collide |
| BookSelection.CollisionIsAmbiguous | backend/internal/api/compat_book_selection.go:42-55 | a number two visible books share, and no book has as its id, names neither |
| Isbn.AcceptsExactly | research/metadata-ranking/rank.py:10-17 | a text is accepted exactly when what is left of it is a valid ISBN-10 or ISBN-13, and the result is its converted or its own form |
| Isbn.AcceptedSymbols | research/metadata-ranking/rank.py:12-17 | acceptance symbol by symbol: lengths, digits, the closing X, the prefix and the two sums; the first nine symbols of a ten-symbol form come back behind 978 |
| Isbn.SumsWrittenOut | research/metadata-ranking/rank.py:13-17 | the weights of the two sums |
| Isbn.CleanEach | research/metadata-ranking/rank.py:11-11 | cleaning works symbol by symbol: spaces and dashes go, letters become capitals |
| Isbn.ResultsAreFixed | research/metadata-ranking/rank.py:10-17 | every result has the ISO 2108 check digit and is its own canonical form |
| Isbn.InjectiveOnIsbn10 | research/metadata-ranking/rank.py:12-15 | distinct valid ISBN-10s have distinct results |
| Isbn.SingleErrorIsRejected | research/metadata-ranking/rank.py:13-17 | one wrong symbol anywhere in an accepted ISBN of either form is rejected |
| Isbn.SwapIsRejected | research/metadata-ranking/rank.py:12-13 | two unequal symbols of an accepted ISBN-10 changing places is rejected |
| Isbn.NeighbourSwapExactly | research/metadata-ranking/rank.py:16-17 | two neighbours anywhere in a valid ISBN-13 may change places unnoticed exactly when they are equal or both stand behind the prefix and differ by five |
| Isbn.UnnoticedSwap | research/metadata-ranking/rank.py:16-17 | two accepted ISBN-13s that differ only in two neighbours having changed places |
| FeedSort.SortReleasesByPublishedAt | backend/internal/acquisition/prowlarr.go:629-640 | the in-place swaps leave the array equal to the stable insertion sort of what it held |
| FeedSort.SortSorts | backend/internal/acquisition/prowlarr.go:629-640 | newest first, undated last |
| FeedSort.NewestComeFirst | backend/internal/acquisition/prowlarr.go:629-640 | in dates: of two releases the earlier in the feed is no older, and undated ones come last |
| FeedSort.SortIsStable | backend/internal/acquisition/prowlarr.go:629-640 | releases with the same date, and undated ones, keep their order |
| FeedSort.SortIsTheOnlyOne | backend/internal/acquisition/prowlarr.go:629-640 | any sorted list with the same releases per date in the same order is this one |
| FeedSort.SortAndCut | backend/internal/acquisition/prowlarr.go:188-216 | the page is the sorted feed cut at the requested size, a hundred when that is not between 1 and 200 |
| FeedSort.CutKeepsTheNewest | backend/internal/acquisition/prowlarr.go:213-216 | the page and what it drops together are the whole feed, and nothing dropped belongs before anything kept |

## Left out

- SQL text, drivers, JSON and HTTP: rows are datatypes in maps, a statement is one step, generated ids, tokens and clock readings are parameters, the remote client is the choice of replies and lists.
- Postgres lock waiting is modelled as a step that cannot happen yet; deadlock detection and freedom are not. Row locks on downloads and wanted books are not modelled, since no result needs them.
- Associations.AssociationIsDurable: assumes adapters name their client without outer spaces, because the state key trims and folds the name while the row key only trims it.
- Associations.TagStaysExactly: assumes the same of the adapters, now and later.
- The grab path of a store without intents, listing and reading intents for display, and `last_error` texts.
- Deleting a book (`on delete set null` on the intent) and the stickiness of the removed state: a later list may overwrite it.
- Unicode: trimming, letter case and blanks are read on ASCII text; a byte is a character.
- Bencode.ParseBencodeString: lengths and offsets are mathematical integers. The code's 64-bit arithmetic wraps for a length of more digits than fit, and already for one that fits when `pos + length` does not (torrent.go:156-160): "9223372036854775807:" gives a negative end that passes the length check, and the slice then panics instead of reporting an error.
- Tags containing commas; a row's tags are the column already split.
- External ids with outer spaces in the lookup that precedes a replay, which trims them.
- An intent id is a number and its tag a unary rendering of it; only distinctness, order and freedom from spaces are used.
- SHA-1 and SHA-256 are parameters, assumed injective where a key result says so. The hash behind the advisory locks and behind numeric book ids is arbitrary and may collide.
- URL parsing of magnet links: the `xt` parameters are given.
- Attempt counts start at one, the schema's default; whether a row requires bookkeeping is a parameter of its insert.
- Sent-time bounds (the 90 second send timeout, the save timeouts): the machine lets any worker stop or be late at any point instead.
- Several clock readings inside one store call are one parameter.
- The early return of the single-row marks on a blank id; the modelled mark begins with its lookup.
- IntentStore.SqlDownloadStore.UpsertDownloads: a database error part way, which leaves the rows before it written, appears in the machine (a crash between two row writes) and not in the class.
- TrackerEdits.ReplaceTracker: the outer slice is an array of tiers, a tier is a value, so aliasing between inner slices is not modelled.
- Tracker tiers read from structured fields instead of text, and every other Transmission call.
- Health: replacing the observation when the configuration changes; a panic inside a probe.
- The ranker's scores and the rest of `rank.py`; searching, categories and release parsing around the feed.
