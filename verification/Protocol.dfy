/**
  The acquisition protocol as a state machine: any number of workers run grabs,
  reconciliations, replays and polls one statement at a time, an operator releases
  slots, other code marks downloads and books, time passes, and any worker may die
  between two statements. The remote client is the choice of replies and lists.
 */
module Protocol {
  import opened Text
  import opened Records
  import opened Downloads
  import opened Statements
  import Bookkeeping
  import Identity

  type Worker = nat

  /** A listed download with its restored tags, and the receipts its link query returned. */
  datatype Noted = Noted(st: Status, links: set<IntentId>)

  datatype Pc =
    | Idle
    // ClaimAcquisition, one transaction
    | AskRequestLock(c: Candidate)
    | AskScopeLock(c: Candidate)
    | SelectScope(c: Candidate)
    | JudgeScope(c: Candidate, existing: IntentId)
    | RetireRequest(c: Candidate, retired: set<IntentId>)
    | CheckRequest(c: Candidate, retired: set<IntentId>)
    | CheckBook(c: Candidate, retired: set<IntentId>)
    | CheckActive(c: Candidate, retired: set<IntentId>)
    | LoadRelease(c: Candidate, retired: set<IntentId>)
    | InsertIntent(c: Candidate, retired: set<IntentId>)
    // grabWithIntent after a committed claim; reconcileClaimedAcquisition
    | Send(row: Intent)
    | ListClient(row: Intent, downloadId: string)
    | SaveReceipt(row: Intent, status: Status)
    | ReportUncertain(row: Intent)
    // UpsertDownloads: link query, then one row at a time; then perhaps finalization
    | ReadLinks(listed: seq<Status>, next: Option<IntentId>)
    | WriteRows(rows: seq<Noted>, next: Option<IntentId>)
    | Finalizing(id: IntentId)
    // reconcileAcquisition, replayAcceptedAcquisition
    | Get(id: IntentId, downloadId: string)
    | Recover(id: IntentId, downloadId: string)
    | Replay(id: IntentId, status: Status)

  datatype State = State(
    t: Tables, clock: Time, workers: map<Worker, Pc>,
    locks: map<int, Worker>,          // advisory locks, until commit or rollback
    rowLocks: map<IntentId, Worker>,  // rows locked by a claim's open transaction
    issued: set<Token>,
    // history variables
    adds: seq<IntentId>,              // every Add call, in order
    receipts: seq<IntentId>,          // every acceptance that reached its row
    claims: map<IntentId, seq<Time>>, // when the intent was claimed, then each time it was claimed for recovery
    noted: map<DownloadKey, set<IntentId>>) // the receipts the link query of a row's last write returned

  /** hashtextextended(key, 4) and hashtextextended(key, 3): arbitrary, and free to collide. */
  datatype LockIds = LockIds(request: string -> int, scope: string -> int)

  function At(s: State, w: Worker): Pc {
    if w in s.workers then s.workers[w] else Idle
  }

  function Go(s: State, w: Worker, pc: Pc): State {
    s.(workers := s.workers[w := pc])
  }

  /** Commit or rollback: every lock of the transaction is dropped. */
  function EndTx(s: State, w: Worker): State {
    s.(locks := map l | l in s.locks && s.locks[l] != w :: s.locks[l],
       rowLocks := map r | r in s.rowLocks && s.rowLocks[r] != w :: s.rowLocks[r])
  }

  function SetRow(s: State, r: Intent): State {
    s.(t := s.t.(intents := s.t.intents[r.id := r]))
  }

  /** Not locked by another open transaction; an update would otherwise wait. */
  predicate Grabbable(s: State, id: IntentId, w: Worker) {
    id in s.rowLocks ==> s.rowLocks[id] == w
  }

  predicate Free(s: State, id: IntentId) { id !in s.rowLocks }

  // ---- ClaimAcquisition ----

  ghost predicate BeginClaim(s: State, s': State, w: Worker, c: Candidate) {
    At(s, w).Idle? && s' == Go(s, w, AskRequestLock(c))
  }

  ghost predicate TakeRequestLock(h: LockIds, s: State, s': State, w: Worker) {
    var pc := At(s, w);
    && pc.AskRequestLock?
    && (h.request(pc.c.requestKey) in s.locks ==> s.locks[h.request(pc.c.requestKey)] == w)
    && s' == Go(s.(locks := s.locks[h.request(pc.c.requestKey) := w]), w, AskScopeLock(pc.c))
  }

  ghost predicate TakeScopeLock(h: LockIds, s: State, s': State, w: Worker) {
    var pc := At(s, w);
    && pc.AskScopeLock?
    && (h.scope(pc.c.scopeKey) in s.locks ==> s.locks[h.scope(pc.c.scopeKey)] == w)
    && s' == Go(s.(locks := s.locks[h.scope(pc.c.scopeKey) := w]), w, SelectScope(pc.c))
  }

  predicate LiveInScope(s: State, id: IntentId, scopeKey: string) {
    id in s.t.intents && s.t.intents[id].Live() && s.t.intents[id].request.scopeKey == scopeKey
  }

  ghost predicate SelectNone(s: State, s': State, w: Worker) {
    var pc := At(s, w);
    && pc.SelectScope?
    && (forall id :: id in s.t.intents ==> !LiveInScope(s, id, pc.c.scopeKey))
    && s' == Go(s, w, RetireRequest(pc.c, {}))
  }

  /** What a grab does with a claim that found this live row instead. */
  function AfterExisting(row: Intent, c: Candidate): Pc {
    if row.request.requestKey != c.requestKey then Idle
    else if row.phase.Accepted? && row.receipt.Some? then Replay(row.id, row.receipt.value)
    else Get(row.id, "")
  }

  ghost predicate SelectExisting(s: State, s': State, w: Worker, id: IntentId) {
    var pc := At(s, w);
    && pc.SelectScope?
    && LiveInScope(s, id, pc.c.scopeKey) && Grabbable(s, id, w)
    && s' == if s.t.intents[id].phase.Accepted?
             then Go(s.(rowLocks := s.rowLocks[id := w]), w, JudgeScope(pc.c, id))
             else Go(EndTx(s, w), w, AfterExisting(s.t.intents[id], pc.c))
  }

  ghost predicate JudgeExisting(s: State, s': State, w: Worker) {
    var pc := At(s, w);
    && pc.JudgeScope? && pc.existing in s.t.intents
    && var row := s.t.intents[pc.existing];
       s' == if FreesScope(s.t, row, pc.c.requestKey) && row.Settled()
             then Go(s, w, RetireRequest(pc.c, {pc.existing}))
             else Go(EndTx(s, w), w, AfterExisting(row, pc.c))
  }

  function Retirable(s: State, requestKey: string): set<IntentId> {
    set id | id in s.t.intents && s.t.intents[id].request.requestKey == requestKey && FreesRequest(s.t, s.t.intents[id])
  }

  ghost predicate RetireByRequest(s: State, s': State, w: Worker) {
    var pc := At(s, w);
    && pc.RetireRequest?
    && var more := Retirable(s, pc.c.requestKey);
       && (forall id :: id in more ==> Grabbable(s, id, w))
       && s' == Go(s.(rowLocks := s.rowLocks + (map id | id in more :: w)), w, CheckRequest(pc.c, pc.retired + more))
  }

  ghost predicate OtherRequest(s: State, c: Candidate, retired: set<IntentId>) {
    exists id :: id in s.t.intents && s.t.intents[id].Live() && id !in retired
        && s.t.intents[id].request.requestKey == c.requestKey
  }

  ghost predicate CheckOtherRequest(s: State, s': State, w: Worker) {
    var pc := At(s, w);
    && pc.CheckRequest?
    && s' == if OtherRequest(s, pc.c, pc.retired) then Go(EndTx(s, w), w, Idle)
        else Go(s, w, CheckBook(pc.c, pc.retired))
  }

  /** Where the book check leads: past a claim without a book, on with an eligible one, or out. */
  function AfterBook(t: Tables, c: Candidate, retired: set<IntentId>): Pc {
    if c.wantedId == "" then LoadRelease(c, retired)
    else if c.wantedId in t.wanted && Eligible(t.wanted[c.wantedId], c.selection.trigger)
    then CheckActive(c.(format := t.wanted[c.wantedId].format), retired)
    else Idle
  }

  ghost predicate CheckEligible(s: State, s': State, w: Worker) {
    var pc := At(s, w);
    && pc.CheckBook?
    && var next := AfterBook(s.t, pc.c, pc.retired);
       s' == Go(if next.Idle? then EndTx(s, w) else s, w, next)
  }

  ghost predicate CheckNoActive(s: State, s': State, w: Worker) {
    var pc := At(s, w);
    && pc.CheckActive?
    && s' == if BookActive(s.t, pc.c.wantedId) then Go(EndTx(s, w), w, Idle)
        else Go(s, w, LoadRelease(pc.c, pc.retired))
  }

  ghost predicate LoadSelected(s: State, s': State, w: Worker) {
    var pc := At(s, w);
    && pc.LoadRelease?
    && s' == if ReleaseKnown(s.t, pc.c) then Go(s, w, InsertIntent(WithRelease(s.t, pc.c), pc.retired))
        else Go(EndTx(s, w), w, Idle)
  }

  /** The insert, and the commit that makes it and the retirements visible. */
  ghost predicate CommitClaim(s: State, s': State, w: Worker, id: IntentId, token: Token, began: Time, required: bool) {
    var pc := At(s, w);
    && pc.InsertIntent? && id !in s.t.intents && token !in s.issued && began <= s.clock
    && var row := NewIntent(pc.c, id, token, began, s.clock, required);
       s' == Go(EndTx(s, w).(t := s.t.(intents := Commit(s.t.intents, pc.retired, row)),
                             issued := s.issued + {token}, claims := s.claims[id := [s.clock]]),
                w, Send(row))
  }

  // ---- grabWithIntent, reconcileClaimedAcquisition, persistAcquisitionAcceptance ----

  datatype Reply = AddFailed | Added(status: Status)

  /** The one Add call. The client may have accepted it whatever the reply says. */
  ghost predicate SendAdd(s: State, s': State, w: Worker, reply: Reply) {
    var pc := At(s, w);
    && pc.Send?
    && s' == Go(s.(adds := s.adds + [pc.row.id]), w,
                match reply
                case AddFailed => ReportUncertain(pc.row)
                case Added(status) =>
                  if Identity.AcceptedIdentity(status.client, status.id)
                  then SaveReceipt(pc.row, Named(status)) else ListClient(pc.row, ""))
  }

  /** A name that is really a URL is not stored. */
  function Named(status: Status): Status {
    var n := status.live.name;
    if HasPrefix(n, "http://") || HasPrefix(n, "https://") || HasPrefix(n, "magnet:")
    then status.(live := status.live.(name := "Download")) else status
  }

  predicate Matches(row: Intent, downloadId: string, st: Status) {
    && st.client == row.request.client
    && if downloadId != "" then st.id == downloadId
       else (row.request.infoHash != "" && Lower(row.request.infoHash) == Lower(st.id)) || IntentTag(row.id) in st.tags
  }

  function Matching(row: Intent, downloadId: string, listed: seq<Status>): seq<Status> {
    if listed == [] then []
    else (if Matches(row, downloadId, listed[0]) then [listed[0]] else []) + Matching(row, downloadId, listed[1..])
  }

  /** A matched download becomes the receipt, carrying the association the client may not. */
  function Claimed(row: Intent, st: Status): Status {
    Named(st.(tags := Attach(st.tags, row)))
  }

  /** Read-only reconciliation; `None` is a failed list, and a changed endpoint is never listed. */
  ghost predicate ListOnce(s: State, s': State, w: Worker, endpointHash: string, listed: Option<seq<Status>>) {
    var pc := At(s, w);
    && pc.ListClient?
    && s' == Go(s, w,
                if pc.row.request.endpointHash != endpointHash || listed.None? then ReportUncertain(pc.row)
                else
                  var found := Matching(pc.row, pc.downloadId, listed.value);
                  if |found| == 1 then SaveReceipt(pc.row, Claimed(pc.row, found[0])) else ReportUncertain(pc.row))
  }

  predicate TokenAccepts(s: State, row: Intent) {
    row.id in s.t.intents && row.leaseToken.Some? && CanAccept(s.t.intents[row.id], row.leaseToken.value, s.clock)
  }

  /** AcceptAcquisition; its acknowledgement may be lost even when it took effect. */
  ghost predicate AcceptStatement(s: State, s': State, w: Worker, acknowledged: bool) {
    var pc := At(s, w);
    && pc.SaveReceipt? && Free(s, pc.row.id)
    && s' == if TokenAccepts(s, pc.row)
             then Go(SetRow(s, AcceptedRow(s.t.intents[pc.row.id], pc.status)).(receipts := s.receipts + [pc.row.id]),
                     w,
                     if acknowledged then ReadLinks([pc.status], Some(pc.row.id)) else ReportUncertain(pc.row))
             else Go(s, w, ReportUncertain(pc.row))
  }

  predicate TokenMarks(s: State, row: Intent) {
    row.id in s.t.intents && row.leaseToken.Some? && CanMarkUncertain(s.t.intents[row.id], row.leaseToken.value)
  }

  ghost predicate UncertainStatement(s: State, s': State, w: Worker) {
    var pc := At(s, w);
    && pc.ReportUncertain? && Free(s, pc.row.id)
    && s' == if TokenMarks(s, pc.row) then Go(SetRow(s, UncertainRow(s.t.intents[pc.row.id], s.clock)), w, Idle)
        else Go(s, w, Idle)
  }

  // ---- UpsertDownloads, FinalizeAcquisition ----

  function LinksOf(rows: seq<Intent>, st: Status): set<IntentId> {
    set k | 0 <= k < |rows| && SameDownload(st, rows[k]) :: rows[k].id
  }

  function Restored(listed: seq<Status>, rows: seq<Intent>): seq<Noted> {
    seq(|listed|,
        n requires 0 <= n < |listed| => Noted(listed[n].(tags := Linked(listed[n], rows)), LinksOf(rows, listed[n])))
  }

  ghost predicate LinkQuery(s: State, s': State, w: Worker, rows: seq<Intent>) {
    var pc := At(s, w);
    && pc.ReadLinks? && LinkRows(s.t.intents, pc.listed, rows)
    && s' == Go(s, w, WriteRows(Restored(pc.listed, rows), pc.next))
  }

  /** One row's upsert; an entry without an id writes nothing. */
  function Written(s: State, row: Noted): State {
    if RowKey(row.st).None? then s
    else s.(t := s.t.(downloads := Upsert(s.t.downloads, row.st, s.clock)),
        noted := s.noted[RowKey(row.st).value := row.links])
  }

  ghost predicate WriteRow(s: State, s': State, w: Worker) {
    var pc := At(s, w);
    && pc.WriteRows?
    && s' == if pc.rows == [] then Go(s, w, if pc.next.Some? then Finalizing(pc.next.value) else Idle)
             else Go(Written(s, pc.rows[0]), w, WriteRows(pc.rows[1..], pc.next))
  }

  ghost predicate FinalizeStatement(s: State, s': State, w: Worker) {
    var pc := At(s, w);
    && pc.Finalizing? && Free(s, pc.id)
    && s' == Go(s.(t := Bookkeeping.Finalize(s.t, pc.id, s.clock)), w, Idle)
  }

  // ---- reconcileAcquisition, replayAcceptedAcquisition, polls ----

  ghost predicate BeginReconcile(s: State, s': State, w: Worker, id: IntentId, downloadId: string) {
    At(s, w).Idle? && s' == Go(s, w, Get(id, downloadId))
  }

  ghost predicate BeginPoll(s: State, s': State, w: Worker, listed: seq<Status>) {
    At(s, w).Idle? && s' == Go(s, w, ReadLinks(listed, None))
  }

  ghost predicate GetIntent(s: State, s': State, w: Worker) {
    var pc := At(s, w);
    && pc.Get?
    && s' == Go(s, w,
                if pc.id !in s.t.intents then Idle
                else
                  var row := s.t.intents[pc.id];
                  if row.phase.Accepted? && row.receipt.Some? then Replay(pc.id, row.receipt.value)
                      else Recover(pc.id, pc.downloadId))
  }

  ghost predicate RecoverStatement(s: State, s': State, w: Worker, token: Token) {
    var pc := At(s, w);
    && pc.Recover? && Free(s, pc.id) && token !in s.issued
    && s' == if pc.id in s.t.intents && CanRecover(s.t.intents[pc.id], s.clock)
             then
               var row := Recovered(s.t.intents[pc.id], token, s.clock);
               Go(SetRow(s, row).(issued := s.issued + {token},
                                  claims := s.claims[pc.id := (if pc.id in s.claims then s.claims[pc.id] else [])
                                      + [s.clock]]),
                  w, ListClient(row, pc.downloadId))
             else Go(s, w, Idle)
  }

  ghost predicate ReplayReceipt(s: State, s': State, w: Worker) {
    var pc := At(s, w);
    && pc.Replay?
    && s' == Go(s, w, if DownloadKey(pc.status.client, pc.status.id) in s.t.downloads then Finalizing(pc.id)
                      else ReadLinks([pc.status], Some(pc.id)))
  }

  // ---- everything else ----

  ghost predicate OperatorRelease(s: State, s': State, id: IntentId) {
    && id in s.t.intents && Free(s, id) && CanOperatorRelease(s.t.intents[id], s.clock)
    && s' == SetRow(s, OperatorReleased(s.t.intents[id]))
  }

  ghost predicate MarkDownload(s: State, s': State, k: DownloadKey, m: Mark) {
    k in s.t.downloads && s' == s.(t := s.t.(downloads := s.t.downloads[k := ApplyMark(s.t.downloads[k], m, s.clock)]))
  }

  /** Other packages edit books, store search results and write their own history. */
  ghost predicate Elsewhere(s: State, s': State, wanted: map<string, Wanted>, releases: map<string, Release>,
          kind: string) {
    s' == s.(t := s.t.(wanted := wanted, releases := releases, history := s.t.history + [OtherEvent(kind)]))
  }

  ghost predicate Tick(s: State, s': State, to: Time) {
    s.clock <= to && s' == s.(clock := to)
  }

  /** A worker dies, times out or is cancelled; an open transaction rolls back. */
  ghost predicate Crash(s: State, s': State, w: Worker) {
    s' == Go(EndTx(s, w), w, Idle)
  }

  // ---- the machine ----

  ghost predicate ClaimStep(h: LockIds, s: State, s': State, w: Worker) {
    || TakeRequestLock(h, s, s', w) || TakeScopeLock(h, s, s', w)
    || SelectNone(s, s', w) || (exists id :: SelectExisting(s, s', w, id)) || JudgeExisting(s, s', w)
    || RetireByRequest(s, s', w) || CheckOtherRequest(s, s', w) || CheckEligible(s, s', w) || CheckNoActive(s, s', w)
    || LoadSelected(s, s', w)
  }

  /** Steps of a worker outside a claim that change no intent row. */
  ghost predicate QuietStep(s: State, s': State, w: Worker) {
    || (exists c :: BeginClaim(s, s', w, c)) || (exists reply :: SendAdd(s, s', w, reply))
    || (exists e, listed :: ListOnce(s, s', w, e, listed)) || (exists rows :: LinkQuery(s, s', w, rows))
        || WriteRow(s, s', w)
    || (exists id, d :: BeginReconcile(s, s', w, id, d)) || (exists listed :: BeginPoll(s, s', w, listed))
    || GetIntent(s, s', w) || ReplayReceipt(s, s', w)
  }

  /** One statement on one intent row. */
  ghost predicate RowStep(s: State, s': State, w: Worker) {
    || (exists ok :: AcceptStatement(s, s', w, ok)) || UncertainStatement(s, s', w)
    || (exists token :: RecoverStatement(s, s', w, token)) || FinalizeStatement(s, s', w)
    || (exists id :: OperatorRelease(s, s', id))
  }

  ghost predicate WorldStep(s: State, s': State) {
    || (exists k, m :: MarkDownload(s, s', k, m))
        || (exists wanted, releases, kind :: Elsewhere(s, s', wanted, releases, kind))
    || (exists to :: Tick(s, s', to))
  }

  ghost predicate Step(h: LockIds, s: State, s': State, w: Worker) {
    || ClaimStep(h, s, s', w)
        || (exists id, token, began, required :: CommitClaim(s, s', w, id, token, began, required))
    || QuietStep(s, s', w) || RowStep(s, s', w) || WorldStep(s, s') || Crash(s, s', w)
  }

  ghost predicate Next(h: LockIds, s: State, s': State) {
    exists w :: Step(h, s, s', w)
  }

  /** No acquisition has been claimed yet; downloads, books and releases may already exist. */
  ghost predicate Init(s: State) {
    && s.t.intents == map[] && s.workers == map[] && s.locks == map[] && s.rowLocks == map[]
    && s.issued == {} && s.adds == [] && s.receipts == [] && s.claims == map[] && s.noted == map[]
    && forall id :: Bookkeeping.EventsFor(s.t.history, id) == 0
  }

  ghost predicate Run(h: LockIds, run: seq<State>) {
    && run != [] && Init(run[0])
    && forall k {:trigger StepsAt(h, run, k)} :: 0 <= k < |run| - 1 ==> StepsAt(h, run, k)
  }

  ghost predicate StepsAt(h: LockIds, run: seq<State>, k: int)
    requires 0 <= k < |run| - 1
  {
    Next(h, run[k], run[k + 1])
  }
}
