/**
  Three runs of the machine, each a complete history from its first state: a late poll
  write drops an accepted download's tags and with them the block on its book, a late
  replay write resets a row to its receipt, and two repairs of one download mark
  different books in different orders.
 */
module Races {
  import opened Text
  import opened Records
  import opened Downloads
  import opened Statements
  import opened Protocol
  import opened ClaimRules
  import opened Runs
  import Associations
  import Bookkeeping
  import Identity
  import Replays

  const NO_LIVE := LiveFields("", "", "", 0, 0, 0, 0, 0, 0, 0.0, 0, 0)
  const KEY := DownloadKey("SABnzbd", "job")
  const WANTED_BOOK := Wanted("wanted", "", true)
  const DETAILS := ReleaseDetails("", 0.0, "", "")

  /** The client's one job, as listed. */
  function Job(state: string, progress: real): Status {
    Status("SABnzbd", "job", NO_LIVE, state, progress, [], None, None, None, None, "", "", None, 0, "")
  }

  /** A request for one book. */
  function Ask(book: BookId): Candidate {
    Candidate(book, book, book, "", "SABnzbd", "", "", "", "", Selection("", "", false, false, DETAILS))
  }

  function Accepted(book: BookId, id: IntentId, now: Time, st: Status): Intent {
    AcceptedRow(NewIntent(Ask(book), id, id, now, now, true), st)
  }

  lemma JobIsNamed(st: Status)
    requires st.client == "SABnzbd" && st.id == "job" && st.live == NO_LIVE
    ensures Identity.AcceptedIdentity(st.client, st.id) && Named(st) == st && RowKey(st) == Some(KEY)
  {
    assert "job"[0] == 'j' && "job"[2] == 'b' && "SABnzbd"[0] == 'S' && "SABnzbd"[6] == 'd';
    assert "qBittorrent"[0] == 'q' && "Transmission"[0] == 'T';
    TrimFixesTrimmed("job");
    TrimFixesTrimmed("SABnzbd");
  }

  lemma AskIsClear(t: Tables, book: BookId)
    requires book != "" && book in t.wanted && t.wanted[book] == WANTED_BOOK && t.downloads == map[]
    requires forall id :: id in t.intents ==>
        t.intents[id].request.scopeKey != book && t.intents[id].request.requestKey != book
    ensures Clear(t, Ask(book)) && Prepared(t, Ask(book)) == Ask(book)
  {
    assert !BookActive(t, book);
  }

  /** A send whose reply arrives within the lease, and the saved receipt. */
  lemma SendsAndSaves(h: LockIds, s: State, w: Worker, row: Intent, st: Status) returns (s': State)
    requires Reachable(h, s) && NoLocks(s) && At(s, w) == Send(row)
    requires row.id in s.t.intents && s.t.intents[row.id] == row
    requires row.phase.Submitting? && row.leaseToken.Some? && row.leaseExpires.Some? && row.leaseExpires.value > s.clock
    requires st.client == "SABnzbd" && st.id == "job" && st.live == NO_LIVE
    ensures Reachable(h, s') && Moves(s, s', w, ReadLinks([st], Some(row.id))) && s'.issued == s.issued
    ensures OneWritten(s, s', AcceptedRow(row, st))
  {
    JobIsNamed(st);
    var s1 := Sends(h, s, w, st);
    s' := Accepts(h, s1, w);
  }

  lemma WrittenTwice(t: Tables, a: Intent, b: Intent)
    requires a.id == b.id
    ensures t.(intents := t.intents[a.id := a]).(intents := t.intents[a.id := a][b.id := b])
        == t.(intents := t.intents[b.id := b])
  {
    assert t.intents[a.id := a][b.id := b] == t.intents[b.id := b];
  }

  /** A claim, its send and its saved receipt. */
  lemma Submits(h: LockIds, s: State, w: Worker, book: BookId, id: IntentId, st: Status) returns (s': State)
    requires Reachable(h, s) && At(s, w).Idle? && NoLocks(s) && id !in s.t.intents && id !in s.issued
    requires Clear(s.t, Ask(book)) && Prepared(s.t, Ask(book)) == Ask(book)
    requires st.client == "SABnzbd" && st.id == "job" && st.live == NO_LIVE
    ensures Reachable(h, s') && Moves(s, s', w, ReadLinks([st], Some(id))) && s'.issued == s.issued + {id}
    ensures OneWritten(s, s', Accepted(book, id, s.clock, st))
  {
    var row := NewIntent(Ask(book), id, id, s.clock, s.clock, true);
    var s1 := Granted(h, s, w, Ask(book), id, id, true);
    s' := SendsAndSaves(h, s1, w, row, st);
    WrittenTwice(s.t, row, AcceptedRow(row, st));
  }

  /** A saved receipt of the job. */
  ghost predicate JobReceipt(t: Tables, id: IntentId) {
    id in t.intents && t.intents[id].phase.Accepted? && t.intents[id].request.client == "SABnzbd"
        && t.intents[id].externalId == "job"
  }

  /** Every answer the link query may give brings the receipt's tags. */
  lemma LinksReceipt(t: Tables, id: IntentId, st: Status) returns (rows: seq<Intent>)
    requires Bookkeeping.Keyed(t) && JobReceipt(t, id) && st.client == "SABnzbd" && st.id == "job"
    ensures LinkRows(t.intents, [st], rows) && Associations.Tagged(t.intents[id], Linked(st, rows))
    ensures Restored([st], rows) == [Noted(st.(tags := Linked(st, rows)), LinksOf(rows, st))]
  {
    rows := SomeLinkRows(t, [st]);
    assert [st][0] == st;
    assert Linkable(t.intents[id], [st]) && id in LinkableIds(t.intents, [st]);
    var n :| 0 <= n < |rows| && rows[n] == t.intents[id];
    Associations.LinkedTags(st, rows, n);
  }

  lemma LinksOne(h: LockIds, s: State, w: Worker, id: IntentId, st: Status, next: Option<IntentId>)
      returns (s': State, entry: Noted)
    requires Reachable(h, s) && Bookkeeping.Keyed(s.t) && At(s, w) == ReadLinks([st], next)
    requires JobReceipt(s.t, id) && st.client == "SABnzbd" && st.id == "job"
    ensures Reachable(h, s') && Next(h, s, s') && SameStore(s, s') && Moves(s, s', w, WriteRows([entry], next))
    ensures entry.st == st.(tags := entry.st.tags) && Associations.Tagged(s.t.intents[id], entry.st.tags)
  {
    var rows := LinksReceipt(s.t, id, st);
    entry := Noted(st.(tags := Linked(st, rows)), LinksOf(rows, st));
    s' := Links(h, s, w, rows);
  }

  lemma WritesOne(h: LockIds, s: State, w: Worker, entry: Noted, next: Option<IntentId>) returns (s': State)
    requires Reachable(h, s) && At(s, w) == WriteRows([entry], next)
    ensures Reachable(h, s') && Next(h, s, s') && WriteRow(s, s', w) && Moves(s, s', w, WriteRows([], next))
    ensures s'.t == s.t.(downloads := Upsert(s.t.downloads, entry.st, s.clock))
    ensures s'.clock == s.clock && s'.locks == s.locks && s'.rowLocks == s.rowLocks && s'.issued == s.issued
  {
    assert [entry][0] == entry && [entry][1..] == [];
    s' := Writes(h, s, w);
  }

  /** Reading the links of the job and writing its row. */
  lemma Stores(h: LockIds, s: State, w: Worker, id: IntentId, st: Status, next: Option<IntentId>)
      returns (s': State, tags: seq<string>)
    requires Reachable(h, s) && Bookkeeping.Keyed(s.t) && At(s, w) == ReadLinks([st], next)
    requires JobReceipt(s.t, id) && st.client == "SABnzbd" && st.id == "job"
    ensures Reachable(h, s') && Moves(s, s', w, WriteRows([], next)) && Associations.Tagged(s.t.intents[id], tags)
    ensures s'.t == s.t.(downloads := Upsert(s.t.downloads, st.(tags := tags), s.clock))
    ensures s'.clock == s.clock && s'.locks == s.locks && s'.rowLocks == s.rowLocks && s'.issued == s.issued
  {
    var s1, entry := LinksOne(h, s, w, id, st, next);
    tags := entry.st.tags;
    s' := WritesOne(h, s1, w, entry, next);
  }

  lemma StartFacts(wanted: map<string, Wanted>)
    ensures var s := Start(wanted);
      && s.t.intents == map[] && s.t.downloads == map[] && NoLocks(s) && s.issued == {} && s.clock == 0
      && s.t.wanted == wanted && forall w :: At(s, w).Idle?
  {}

  // ---- a late poll write ----

  const POLLER: Worker := 0
  const GRABBER: Worker := 1

  /** The add has answered, and the grabber is about to save the receipt. */
  ghost predicate AddAnswered(s: State, book: BookId, st: Status) {
    var row := NewIntent(Ask(book), 0, 0, 0, 0, true);
    && s.t.intents == map[0 := row] && s.t.downloads == map[] && NoLocks(s) && s.clock == 0
    && At(s, GRABBER) == SaveReceipt(row, st)
  }

  lemma AddAnswers(h: LockIds, book: BookId, st: Status) returns (s: State)
    requires book != "" && st == Job("downloading", 0.0)
    ensures Reachable(h, s) && AddAnswered(s, book, st) && At(s, POLLER).Idle?
  {
    var wanted := map[book := WANTED_BOOK];
    var s0 := Start(wanted);
    StartIsReachable(h, wanted);
    StartFacts(wanted);
    AskIsClear(s0.t, book);
    JobIsNamed(st);
    var s1 := Granted(h, s0, GRABBER, Ask(book), 0, 0, true);
    s := Sends(h, s1, GRABBER, st);
  }

  /** A poll lists the new job and reads its links: there is no receipt to link yet. */
  lemma PollsBetween(h: LockIds, s: State, book: BookId, st: Status) returns (s': State)
    requires Reachable(h, s) && AddAnswered(s, book, st) && At(s, POLLER).Idle?
    ensures Reachable(h, s') && AddAnswered(s', book, st) && At(s', POLLER) == WriteRows([Noted(st, {})], None)
  {
    var s1 := Polls(h, s, POLLER, [st]);
    assert LinkableIds(s1.t.intents, [st]) == {};
    assert LinkRows(s1.t.intents, [st], []);
    s' := Links(h, s1, POLLER, []);
    NothingRestored(st);
  }

  lemma NothingRestored(st: Status)
    ensures Restored([st], []) == [Noted(st, {})]
  {
    assert LinksOf([], st) == {};
  }

  /** The poller still waits to write; the grab has saved its receipt. */
  lemma SavesMeanwhile(h: LockIds, s: State, book: BookId, st: Status) returns (s': State)
    requires Reachable(h, s) && AddAnswered(s, book, st) && st.id == "job"
    ensures Reachable(h, s') && At(s', POLLER) == At(s, POLLER) && At(s', GRABBER) == ReadLinks([st], Some(0))
    ensures s'.t.downloads == map[] && s'.t.intents == map[0 := Accepted(book, 0, 0, st)]
  {
    s' := Accepts(h, s, GRABBER);
  }

  /** An active, accepted download of the book. */
  ghost predicate ActiveJob(t: Tables, book: BookId) {
    && 0 in t.intents && t.intents[0].phase.Accepted? && t.intents[0].request.wantedId == book
        && t.intents[0].Key() == KEY
    && KEY in t.downloads && Bookkeeping.Fresh(t.downloads[KEY])
  }

  lemma FirstWrite(st: Status, tags: seq<string>, now: Time)
    requires st.client == "SABnzbd" && st.id == "job" && st.live == NO_LIVE && st.progress == 0.0
    requires st.completedAt.None? && st.importStatus == ""
    ensures Upsert(map[], st.(tags := tags), now) == map[KEY := Insert(st.(tags := tags), now)]
    ensures Insert(st.(tags := tags), now).importStatus == "pending"
    ensures forall d :: Upsert(map[KEY := d], st, now) == map[KEY := Merge(d, st, now)]
  {
    JobIsNamed(st);
    JobIsNamed(st.(tags := tags));
  }

  lemma LosesTags(t: Tables, t': Tables, book: BookId, st: Status, tags: seq<string>, now: Time)
    requires st == Job("downloading", 0.0) && book != "" && t'.intents == t.intents
    requires 0 in t.intents && t.intents[0].phase.Accepted? && t.intents[0].request.wantedId == book
    requires t.intents[0].Key() == KEY
    requires Associations.Tagged(t.intents[0], tags)
    requires t.downloads == Upsert(map[], st.(tags := tags), now) && t'.downloads == Upsert(t.downloads, st, now)
    ensures ActiveJob(t, book) && t.downloads[KEY].tags == tags && BookActive(t, book)
    ensures ActiveJob(t', book) && t'.downloads[KEY].tags == [] && !BookActive(t', book)
  {
    FirstWrite(st, tags, now);
    assert ActiveFor(t.downloads[KEY], book);
  }

  /**
    The late write: an accepted download that is still active loses its intent and book
    tags to a poll that read its links before the acceptance, and from then on no longer
    stops a claim for its book.
   */
  lemma LateWriteLosesTheTags(h: LockIds, book: BookId) returns (s: State, s': State)
    requires book != ""
    ensures Reachable(h, s) && WriteRow(s, s', POLLER) && s'.t.intents == s.t.intents
    ensures ActiveJob(s.t, book) && Associations.Tagged(s.t.intents[0], s.t.downloads[KEY].tags)
    ensures BookActive(s.t, book)
    ensures ActiveJob(s'.t, book) && s'.t.downloads[KEY].tags == [] && !BookActive(s'.t, book)
  {
    var st := Job("downloading", 0.0);
    var s1 := AddAnswers(h, book, st);
    var s2 := PollsBetween(h, s1, book, st);
    var s3 := SavesMeanwhile(h, s2, book, st);
    var tags;
    s, tags := Stores(h, s3, GRABBER, 0, st, Some(0));
    s' := WritesOne(h, s, POLLER, Noted(st, {}), None);
    LosesTags(s.t, s'.t, book, st, tags, s.clock);
  }

  // ---- a late replay write ----

  const FIRST: Worker := 0
  const OTHER: Worker := 1

  /** The replayer is about to look for the row of its saved receipt, and there is none. */
  ghost predicate Looking(s: State, book: BookId, st: Status) {
    && s.t.intents == map[0 := Accepted(book, 0, 0, st)] && s.t.downloads == map[]
    && At(s, FIRST) == Replay(0, st) && At(s, OTHER).Idle?
  }

  /** The first worker's grab has saved its receipt. */
  ghost predicate OneSaved(s: State, wanted: map<string, Wanted>, book: BookId, st: Status) {
    && s.t.intents == map[0 := Accepted(book, 0, 0, st)] && s.t.downloads == map[] && s.t.wanted == wanted
    && NoLocks(s) && s.issued == {0} && s.clock == 0
    && At(s, FIRST) == ReadLinks([st], Some(0)) && At(s, OTHER).Idle?
  }

  lemma FirstReceipt(h: LockIds, wanted: map<string, Wanted>, book: BookId, st: Status) returns (s: State)
    requires book != "" && book in wanted && wanted[book] == WANTED_BOOK && st == Job("downloading", 0.0)
    ensures Reachable(h, s) && OneSaved(s, wanted, book, st)
  {
    var s0 := Start(wanted);
    StartIsReachable(h, wanted);
    StartFacts(wanted);
    AskIsClear(s0.t, book);
    s := Submits(h, s0, FIRST, book, 0, st);
  }

  /** The worker dies with its receipt saved, and a replay of the receipt begins. */
  lemma ReplayBegins(h: LockIds, s: State, book: BookId, st: Status) returns (s': State)
    requires Reachable(h, s) && NoLocks(s) && At(s, OTHER).Idle?
    requires s.t.intents == map[0 := Accepted(book, 0, 0, st)] && s.t.downloads == map[]
    ensures Reachable(h, s') && Looking(s', book, st)
  {
    var s1 := Dies(h, s, FIRST);
    var s2 := Reconciles(h, s1, FIRST, 0, "");
    s' := Gets(h, s2, FIRST);
  }

  /** The run ends with the look of a replay that found no row. */
  ghost predicate Missed(h: LockIds, run: seq<State>, st: Status) {
    && Run(h, run) && 2 <= |run| && ReplayReceipt(run[|run| - 2], run[|run| - 1], FIRST)
    && At(run[|run| - 2], FIRST) == Replay(0, st) && !Replays.Found(run[|run| - 2], FIRST)
  }

  lemma LookMisses(h: LockIds, s: State, book: BookId, st: Status) returns (run: seq<State>)
    requires Reachable(h, s) && Looking(s, book, st) && st.id == "job"
    ensures Missed(h, run, st)
  {
    var before :| Run(h, before) && before[|before| - 1] == s;
    var looked := LooksForRow(h, s, FIRST);
    RunGrows(h, before, looked);
    run := before + [looked];
  }

  lemma MissedLook(h: LockIds, book: BookId, st: Status) returns (run: seq<State>)
    requires book != "" && st == Job("downloading", 0.0)
    ensures Missed(h, run, st)
  {
    var s := FirstReceipt(h, map[book := WANTED_BOOK], book, st);
    s := ReplayBegins(h, s, book, st);
    run := LookMisses(h, s, book, st);
  }

  lemma ResetsAfter(h: LockIds, begun: seq<State>, st: Status, done: Status)
      returns (run: seq<State>, i: nat, s': State)
    requires Missed(h, begun, st) && RowKey(st) == Some(KEY) && RowKey(done) == Some(KEY)
    ensures Run(h, run) && Replays.Replaying(run, FIRST, i, |run| - 1) && WriteRow(run[|run| - 1], s', FIRST)
    ensures Replays.ShowsEntry(run[|run| - 1].t, KEY, done) && Replays.ShowsEntry(s'.t, KEY, st)
  {
    run := Replays.Overtaken(h, begun, FIRST, done, KEY);
    i := |begun| - 2;
    s' := Replays.WritesOver(h, run[|run| - 1], FIRST, 0, st, KEY);
  }

  /**
    The replay's look finds no row; a poll stores the finished download; then the replay
    writes its receipt and the row is back at the beginning.
   */
  lemma ReplayResetsTheRow(h: LockIds, book: BookId) returns (run: seq<State>, i: nat, s': State)
    requires book != ""
    ensures Run(h, run) && Replays.Replaying(run, FIRST, i, |run| - 1) && WriteRow(run[|run| - 1], s', FIRST)
    ensures Replays.ShowsEntry(run[|run| - 1].t, KEY, Job("complete", 1.0))
    ensures Replays.ShowsEntry(s'.t, KEY, Job("downloading", 0.0))
  {
    var st, done := Job("downloading", 0.0), Job("complete", 1.0);
    JobIsNamed(st);
    JobIsNamed(done);
    var begun := MissedLook(h, book, st);
    run, i, s' := ResetsAfter(h, begun, st, done);
  }

  // ---- two repairs of one download ----

  /** A second book's intent, whose one send was never answered, next to the first book's receipt. */
  ghost predicate TwoIntents(s: State, wanted: map<string, Wanted>, one: BookId, st: Status, second: Intent) {
    && s.t.intents.Keys == {0, 1} && s.t.intents[0] == Accepted(one, 0, 0, st) && s.t.intents[1] == second
    && s.t.downloads == map[] && s.t.wanted == wanted
    && NoLocks(s) && At(s, FIRST) == ReadLinks([st], Some(0))
  }

  lemma SecondWritten(s: State, s': State, wanted: map<string, Wanted>, one: BookId, st: Status, before: Intent,
          after: Intent)
    requires TwoIntents(s, wanted, one, st, before) && after.id == 1
    requires OneWritten(s, s', after) && At(s', FIRST) == At(s, FIRST)
    ensures TwoIntents(s', wanted, one, st, after)
  {}

  /** The second book's row: accepted by nobody, no lease, due for a check within five minutes. */
  predicate Unanswered(row: Intent, two: BookId) {
    && row.id == 1 && row.request == Ask(two) && row.phase.Uncertain? && row.createdAt == 0
    && row.bookkeepingRequired && row.bookkeepingAt.None?
    && row.leaseExpires.None? && row.nextCheck.Some? && row.nextCheck.value <= 300 * SECOND
  }

  /** The same row under a running lease. */
  predicate Leased(row: Intent, two: BookId, now: Time) {
    && row.id == 1 && row.request == Ask(two) && row.phase.Uncertain? && row.createdAt == 0
    && row.bookkeepingRequired && row.bookkeepingAt.None?
    && row.leaseToken.Some? && CanAccept(row, row.leaseToken.value, now)
  }

  lemma SecondGoesUnanswered(h: LockIds, s: State, wanted: map<string, Wanted>, one: BookId, two: BookId, st: Status)
      returns (s': State, row: Intent)
    requires Reachable(h, s) && OneSaved(s, wanted, one, st) && one != two && two != "" && two in wanted
    requires wanted[two] == WANTED_BOOK
    ensures Reachable(h, s') && TwoIntents(s', wanted, one, st, row) && Unanswered(row, two)
    ensures At(s', OTHER).Idle? && s'.issued == {0, 1} && s'.clock == 0
  {
    AskIsClear(s.t, two);
    BackoffRange(1);
    var sent := NewIntent(Ask(two), 1, 1, 0, 0, true);
    row := UncertainRow(sent, 0);
    var s1 := Granted(h, s, OTHER, Ask(two), 1, 1, true);
    var s2 := LosesReply(h, s1, OTHER);
    s' := Reports(h, s2, OTHER);
    WrittenTwice(s.t, sent, row);
  }

  /** The next check is due; an operator names the job for the unanswered intent. */
  lemma OperatorAsks(h: LockIds, s: State, wanted: map<string, Wanted>, one: BookId, st: Status, row: Intent)
      returns (s': State)
    requires Reachable(h, s) && TwoIntents(s, wanted, one, st, row) && At(s, OTHER).Idle? && s.clock == 0
    requires row.phase.Uncertain?
    ensures Reachable(h, s') && TwoIntents(s', wanted, one, st, row) && At(s', OTHER) == Recover(1, "job")
    ensures s'.issued == s.issued && s'.clock == 300 * SECOND
  {
    var s1 := Waits(h, s, 300 * SECOND);
    var s2 := Reconciles(h, s1, OTHER, 1, "job");
    s' := Gets(h, s2, OTHER);
  }

  lemma OperatorLists(h: LockIds, s: State, wanted: map<string, Wanted>, one: BookId, two: BookId, st: Status,
          row: Intent)
      returns (s': State, leased: Intent)
    requires Reachable(h, s) && TwoIntents(s, wanted, one, st, row) && Unanswered(row, two)
    requires At(s, OTHER) == Recover(1, "job")
    requires s.issued == {0, 1} && s.clock == 300 * SECOND
    ensures Reachable(h, s') && TwoIntents(s', wanted, one, st, leased) && At(s', OTHER) == ListClient(leased, "job")
    ensures Leased(leased, two, s'.clock)
  {
    leased := Recovered(row, 2, s.clock);
    s' := Recovers(h, s, OTHER, 2);
    SecondWritten(s, s', wanted, one, st, row, leased);
  }

  lemma FindsJob(row: Intent, st: Status)
    requires row.request.client == st.client == "SABnzbd" && st.id == "job"
    ensures Matching(row, "job", [st]) == [st]
  {
    assert [st][0] == st && [st][1..] == [];
    assert Matching(row, "job", []) == [];
  }

  lemma ClaimedJob(row: Intent, st: Status)
    requires st.live == NO_LIVE
    ensures Protocol.Claimed(row, st) == st.(tags := Attach(st.tags, row))
  {}

  lemma OperatorFinds(h: LockIds, s: State, wanted: map<string, Wanted>, one: BookId, st: Status, row: Intent)
      returns (s': State, claimed: Status)
    requires Reachable(h, s) && TwoIntents(s, wanted, one, st, row) && At(s, OTHER) == ListClient(row, "job")
    requires row.request.client == st.client == "SABnzbd" && st.id == "job" && st.live == NO_LIVE
    ensures Reachable(h, s') && TwoIntents(s', wanted, one, st, row) && At(s', OTHER) == SaveReceipt(row, claimed)
    ensures s'.clock == s.clock && claimed == st.(tags := claimed.tags)
  {
    FindsJob(row, st);
    ClaimedJob(row, st);
    claimed := Protocol.Claimed(row, st);
    s' := Finds(h, s, OTHER, st);
  }

  lemma OperatorSaves(h: LockIds, s: State, wanted: map<string, Wanted>, one: BookId, two: BookId, st: Status,
          row: Intent, claimed: Status)
      returns (s': State)
    requires Reachable(h, s) && TwoIntents(s, wanted, one, st, row) && At(s, OTHER) == SaveReceipt(row, claimed)
    requires Leased(row, two, s.clock)
    ensures Reachable(h, s') && TwoIntents(s', wanted, one, st, AcceptedRow(row, claimed))
    ensures At(s', OTHER) == ReadLinks([claimed], Some(1)) && s'.clock == s.clock
  {
    s' := Accepts(h, s, OTHER);
    SecondWritten(s, s', wanted, one, st, row, AcceptedRow(row, claimed));
  }

  lemma OperatorMatches(h: LockIds, s: State, wanted: map<string, Wanted>, one: BookId, two: BookId, st: Status,
          row: Intent)
      returns (s': State, claimed: Status)
    requires Reachable(h, s) && TwoIntents(s, wanted, one, st, row) && At(s, OTHER) == ListClient(row, "job")
    requires Leased(row, two, s.clock)
    requires st.client == "SABnzbd" && st.id == "job" && st.live == NO_LIVE
    ensures Reachable(h, s') && TwoIntents(s', wanted, one, st, AcceptedRow(row, claimed))
    ensures At(s', OTHER) == ReadLinks([claimed], Some(1))
    ensures Leased(row, two, s'.clock) && claimed == st.(tags := claimed.tags)
  {
    var s1, c := OperatorFinds(h, s, wanted, one, st, row);
    claimed := c;
    s' := OperatorSaves(h, s1, wanted, one, two, st, row, c);
  }

  /** The operator's reconciliation, from the idle worker to the saved receipt. */
  lemma OperatorAttaches(h: LockIds, s: State, wanted: map<string, Wanted>, one: BookId, two: BookId, st: Status,
          row: Intent)
      returns (s': State, leased: Intent, claimed: Status)
    requires Reachable(h, s) && TwoIntents(s, wanted, one, st, row) && Unanswered(row, two) && At(s, OTHER).Idle?
    requires s.issued == {0, 1} && s.clock == 0 && st.client == "SABnzbd" && st.id == "job" && st.live == NO_LIVE
    ensures Reachable(h, s') && TwoIntents(s', wanted, one, st, AcceptedRow(leased, claimed))
    ensures At(s', OTHER) == ReadLinks([claimed], Some(1))
    ensures Leased(leased, two, s'.clock) && claimed == st.(tags := claimed.tags)
  {
    var s1 := OperatorAsks(h, s, wanted, one, st, row);
    var s2, r := OperatorLists(h, s1, wanted, one, two, st, row);
    leased := r;
    s', claimed := OperatorMatches(h, s2, wanted, one, two, st, r);
  }

  /** Both receipts are saved, and nobody has written the job's row. */
  lemma BothSaved(h: LockIds, wanted: map<string, Wanted>, one: BookId, two: BookId, st: Status)
      returns (s: State, leased: Intent, claimed: Status)
    requires one != two && one != "" && two != "" && one in wanted && two in wanted && wanted[one] == WANTED_BOOK
    requires wanted[two] == WANTED_BOOK
    requires st == Job("downloading", 0.0)
    ensures Reachable(h, s) && TwoIntents(s, wanted, one, st, AcceptedRow(leased, claimed))
    ensures At(s, OTHER) == ReadLinks([claimed], Some(1))
    ensures Leased(leased, two, s.clock) && claimed == st.(tags := claimed.tags)
  {
    s := FirstReceipt(h, wanted, one, st);
    var row;
    s, row := SecondGoesUnanswered(h, s, wanted, one, two, st);
    s, leased, claimed := OperatorAttaches(h, s, wanted, one, two, st, row);
  }

  /** Two receipts of the one job, for two books; its row is unlinked and fresh. */
  ghost predicate SharedJob(t: Tables, one: BookId, two: BookId) {
    && Bookkeeping.Keyed(t) && JobReceipt(t, 0) && JobReceipt(t, 1)
    && (forall id :: id in {0, 1} ==>
        t.intents[id].bookkeepingRequired && t.intents[id].bookkeepingAt.None? && t.intents[id].createdAt == 0)
    && t.intents[0].request.wantedId == one && t.intents[1].request.wantedId == two
    && KEY in t.downloads && t.downloads[KEY].link.None? && Bookkeeping.Fresh(t.downloads[KEY])
    && one in t.wanted && t.wanted[one] == WANTED_BOOK && one != two && one != "" && two != ""
  }

  lemma StoredTwice(st: Status, a: seq<string>, b: seq<string>, now: Time, later: Time)
    requires st == Job("downloading", 0.0)
    ensures var rows := Upsert(Upsert(map[], st.(tags := a), now), st.(tags := b), later);
      KEY in rows && rows[KEY].link.None? && Bookkeeping.Fresh(rows[KEY])
  {
    FirstWrite(st, a, now);
    JobIsNamed(st.(tags := b));
  }

  /** Both workers are about to repair. */
  lemma BothStored(h: LockIds, wanted: map<string, Wanted>, one: BookId, two: BookId) returns (s: State)
    requires one != two && one != "" && two != "" && one in wanted && two in wanted && wanted[one] == WANTED_BOOK
    requires wanted[two] == WANTED_BOOK
    ensures Reachable(h, s) && NoLocks(s) && At(s, FIRST) == Finalizing(0) && At(s, OTHER) == Finalizing(1)
    ensures SharedJob(s.t, one, two)
  {
    var st := Job("downloading", 0.0);
    var s1, leased, claimed := BothSaved(h, wanted, one, two, st);
    s := BothStore(h, s1, wanted, one, two, st, leased, claimed);
  }

  lemma BothStore(h: LockIds, s: State, wanted: map<string, Wanted>, one: BookId, two: BookId, st: Status,
          leased: Intent, claimed: Status)
      returns (s': State)
    requires Reachable(h, s) && TwoIntents(s, wanted, one, st, AcceptedRow(leased, claimed))
    requires At(s, OTHER) == ReadLinks([claimed], Some(1))
    requires Leased(leased, two, s.clock) && st == Job("downloading", 0.0) && claimed == st.(tags := claimed.tags)
    requires one in wanted && wanted[one] == WANTED_BOOK && one != two && one != "" && two != ""
    ensures Reachable(h, s') && NoLocks(s') && At(s', FIRST) == Finalizing(0) && At(s', OTHER) == Finalizing(1)
    ensures SharedJob(s'.t, one, two)
  {
    var s1, a := Stores(h, s, FIRST, 0, st, Some(0));
    var s2 := Finishes(h, s1, FIRST, 0);
    var s3, b := Stores(h, s2, OTHER, 1, claimed, Some(1));
    s' := Finishes(h, s3, OTHER, 1);
    assert claimed.(tags := b) == st.(tags := b);
    StoredTwice(st, a, b, s.clock, s2.clock);
  }

  lemma OlderFirst(t: Tables, one: BookId, two: BookId, now: Time)
    requires SharedJob(t, one, two)
    ensures var a := Bookkeeping.Finalize(Bookkeeping.Finalize(t, 0, now), 1, now);
      one in a.wanted && a.wanted[one].status == "grabbed"
  {
    var x, y := [(0, now)], [(1, now)];
    assert x[0].0 == 0 && y[0].0 == 1 && t.intents[0].Key() == KEY && t.intents[1].Key() == KEY;
    Bookkeeping.TwoRepairs(t, 0, 1, now, now, KEY);
  }

  lemma NewerFirst(t: Tables, one: BookId, two: BookId, now: Time)
    requires SharedJob(t, one, two)
    ensures var b := Bookkeeping.Finalize(Bookkeeping.Finalize(t, 1, now), 0, now);
      one in b.wanted && b.wanted[one].status == "wanted"
  {
    var x, y := [(0, now)], [(1, now)];
    assert x[0].0 == 0 && y[0].0 == 1 && t.intents[0].Key() == KEY && t.intents[1].Key() == KEY;
    assert Bookkeeping.Later(t.intents[1], t.intents[0]);
    Bookkeeping.TwoRepairs(t, 1, 0, now, now, KEY);
  }

  lemma RepairsBoth(h: LockIds, s: State, v: Worker, x: IntentId, w: Worker, y: IntentId) returns (s': State)
    requires Reachable(h, s) && NoLocks(s) && v != w && At(s, v) == Finalizing(x) && At(s, w) == Finalizing(y)
    ensures Reachable(h, s') && s'.t == Bookkeeping.Finalize(Bookkeeping.Finalize(s.t, x, s.clock), y, s.clock)
  {
    var s1 := Repairs(h, s, v, x);
    s' := Repairs(h, s1, w, y);
  }

  /**
    An operator attaches a second book's intent to the first book's download. From one
    state, the two orders of the two repairs leave the first book grabbed or not.
   */
  lemma RepairOrderShows(h: LockIds, one: BookId, two: BookId) returns (s: State, a: State, b: State)
    requires one != two && one != "" && two != ""
    ensures Reachable(h, s) && SharedJob(s.t, one, two) && At(s, FIRST) == Finalizing(0)
    ensures At(s, OTHER) == Finalizing(1)
    ensures Reachable(h, a) && a.t == Bookkeeping.Finalize(Bookkeeping.Finalize(s.t, 0, s.clock), 1, s.clock)
    ensures Reachable(h, b) && b.t == Bookkeeping.Finalize(Bookkeeping.Finalize(s.t, 1, s.clock), 0, s.clock)
    ensures one in a.t.wanted && one in b.t.wanted && a.t.wanted[one].status == "grabbed"
    ensures b.t.wanted[one].status == "wanted"
  {
    s := BothStored(h, map[one := WANTED_BOOK, two := WANTED_BOOK], one, two);
    a := RepairsBoth(h, s, FIRST, 0, OTHER, 1);
    b := RepairsBoth(h, s, OTHER, 1, FIRST, 0);
    OlderFirst(s.t, one, two, s.clock);
    NewerFirst(s.t, one, two, s.clock);
  }
}
