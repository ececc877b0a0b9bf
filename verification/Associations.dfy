/**
  Durable association: how long an accepted download keeps its receipt's tags, whatever
  the client lists drop, and what it blocks meanwhile.
 */
module Associations {
  import opened Text
  import opened Records
  import opened Downloads
  import opened Statements
  import opened Protocol
  import opened ClaimSafety
  import opened Histories
  import opened CalmSteps
  import opened Runs
  import Bookkeeping

  /** A receipt's tags are in a tag list. */
  ghost predicate Tagged(i: Intent, tags: seq<string>) {
    IntentTag(i.id) in tags && (i.request.wantedId != "" ==> WantedTag(i.request.wantedId) in tags)
  }

  predicate HasReceipt(i: Intent) {
    i.phase.Accepted? || i.phase.Released?
  }

  ghost predicate NotedOk(s: State, links: set<IntentId>, tags: seq<string>) {
    forall id :: id in links ==> id in s.t.intents && HasReceipt(s.t.intents[id]) && Tagged(s.t.intents[id], tags)
  }

  /** Rows still to be written, and rows last written, carry the tags of every receipt their link query returned. */
  ghost predicate TagInv(s: State) {
    && Bookkeeping.Keyed(s.t)
    && (forall w :: At(s, w).WriteRows? ==> forall k :: 0 <= k < |At(s, w).rows| ==>
        NotedOk(s, At(s, w).rows[k].links, At(s, w).rows[k].st.tags))
    && (forall k :: k in s.noted ==> k in s.t.downloads && NotedOk(s, s.noted[k], s.t.downloads[k].tags))
  }

  // ---- what a link query returns ----

  lemma RestoredOk(s: State, listed: seq<Status>, rows: seq<Intent>, k: nat)
    requires Bookkeeping.Keyed(s.t) && k < |listed|
    requires forall n :: 0 <= n < |rows| ==>
        rows[n].id in s.t.intents && rows[n] == s.t.intents[rows[n].id] && HasReceipt(rows[n])
    ensures NotedOk(s, Restored(listed, rows)[k].links, Restored(listed, rows)[k].st.tags)
    ensures Restored(listed, rows)[k].links == LinksOf(rows, listed[k])
    ensures RowKey(Restored(listed, rows)[k].st) == RowKey(listed[k])
  {
    var st := listed[k];
    forall id | id in LinksOf(rows, st)
      ensures id in s.t.intents && HasReceipt(s.t.intents[id]) && Tagged(s.t.intents[id], Linked(st, rows))
    {
      var n :| 0 <= n < |rows| && SameDownload(st, rows[n]) && rows[n].id == id;
      LinkedTags(st, rows, n);
    }
  }

  lemma LinkedTags(st: Status, rows: seq<Intent>, n: nat)
    requires n < |rows| && SameDownload(st, rows[n])
    ensures Tagged(rows[n], Linked(st, rows))
  {
    IntentTagIsTrimmed(rows[n].id);
    TrimmedByTrim(IntentTag(rows[n].id));
    LinkedKeepsTag(st, rows, n, IntentTag(rows[n].id));
    if rows[n].request.wantedId != "" {
      WantedTagIsTrimmed(rows[n].request.wantedId);
      TrimmedByTrim(WantedTag(rows[n].request.wantedId));
      LinkedKeepsTag(st, rows, n, WantedTag(rows[n].request.wantedId));
    }
  }

  lemma TrimmedByTrim(x: string)
    requires Trim(x) == x
    ensures Trimmed(x)
  {
    TrimSpec(x);
  }

  /** Every accepted or released receipt of a listed download is noted by the link query. */
  lemma ReceiptsAreNoted(s: State, s': State, w: Worker, rows: seq<Intent>, n: nat, id: IntentId)
    requires Bookkeeping.Keyed(s.t) && LinkQuery(s, s', w, rows) && n < |At(s, w).listed|
    requires id in s.t.intents && HasReceipt(s.t.intents[id]) && s.t.intents[id].externalId != ""
    requires At(s, w).listed[n].client == s.t.intents[id].request.client
    requires At(s, w).listed[n].id == s.t.intents[id].externalId
    ensures At(s', w).WriteRows? && n < |At(s', w).rows| && id in At(s', w).rows[n].links
  {
    var listed := At(s, w).listed;
    var i := s.t.intents[id];
    assert Linkable(i, listed) && id in LinkableIds(s.t.intents, listed);
    assert i in rows;
    var k :| 0 <= k < |rows| && rows[k] == i;
    assert SameDownload(listed[n], rows[k]);
    LinkRowsHaveReceipts(s, listed, rows);
    RestoredOk(s, listed, rows, n);
  }

  lemma LinkRowsHaveReceipts(s: State, listed: seq<Status>, rows: seq<Intent>)
    requires Bookkeeping.Keyed(s.t) && LinkRows(s.t.intents, listed, rows)
    ensures forall n :: 0 <= n < |rows| ==>
        rows[n].id in s.t.intents && rows[n] == s.t.intents[rows[n].id] && HasReceipt(rows[n])
  {
    forall n | 0 <= n < |rows|
      ensures rows[n].id in s.t.intents && rows[n] == s.t.intents[rows[n].id] && HasReceipt(rows[n])
    {
      assert rows[n].id in LinkableIds(s.t.intents, listed);
    }
  }

  // ---- keeping TagInv ----

  lemma NotedOkEvolves(s: State, s': State, links: set<IntentId>, tags: seq<string>)
    requires NotedOk(s, links, tags) && RowsEvolve(s, s')
    ensures NotedOk(s', links, tags)
  {}

  /** What a step may do to writes in progress and to written rows. */
  ghost predicate TagStep(s: State, s': State) {
    && (forall w, k :: At(s', w).WriteRows? && 0 <= k < |At(s', w).rows| ==> RowFrom(s, w, At(s', w).rows[k]))
    && (forall k :: k in s'.noted ==> k in s'.t.downloads && WrittenFrom(s, s', k))
  }

  /** A pending row was already pending, or was just restored from this state's receipts. */
  ghost predicate RowFrom(s: State, w: Worker, row: Noted) {
    || (At(s, w).WriteRows? && row in At(s, w).rows)
    || NotedOk(s, row.links, row.st.tags)
  }

  /** A noted row keeps its note and tags, or was just written from a pending row. */
  ghost predicate WrittenFrom(s: State, s': State, k: DownloadKey)
    requires k in s'.noted && k in s'.t.downloads
  {
    || (k in s.noted && k in s.t.downloads && s'.noted[k] == s.noted[k]
        && s'.t.downloads[k].tags == s.t.downloads[k].tags)
    || exists w :: At(s, w).WriteRows? && At(s, w).rows != [] && s'.noted[k] == At(s, w).rows[0].links
        && s'.t.downloads[k].tags == At(s, w).rows[0].st.tags
  }

  lemma TagStepKeepsInv(s: State, s': State)
    requires TagInv(s) && TagStep(s, s') && RowsEvolve(s, s') && Bookkeeping.Keyed(s'.t)
    ensures TagInv(s')
  {
    forall w, k | At(s', w).WriteRows? && 0 <= k < |At(s', w).rows|
      ensures NotedOk(s', At(s', w).rows[k].links, At(s', w).rows[k].st.tags)
    {
      var row := At(s', w).rows[k];
      assert RowFrom(s, w, row);
      if At(s, w).WriteRows? && row in At(s, w).rows {
        var n :| 0 <= n < |At(s, w).rows| && At(s, w).rows[n] == row;
        assert NotedOk(s, At(s, w).rows[n].links, At(s, w).rows[n].st.tags);
      }
      NotedOkEvolves(s, s', row.links, row.st.tags);
    }
    forall k | k in s'.noted ensures k in s'.t.downloads && NotedOk(s', s'.noted[k], s'.t.downloads[k].tags) {
      assert WrittenFrom(s, s', k);
      NotedOkEvolves(s, s', s'.noted[k], s'.t.downloads[k].tags);
    }
  }

  /** Steps that leave downloads' tags and notes alone and put nobody at WriteRows. */
  ghost predicate TagsStill(s: State, s': State) {
    && s'.noted == s.noted
    && (forall k :: k in s.t.downloads ==> k in s'.t.downloads && s'.t.downloads[k].tags == s.t.downloads[k].tags)
    && (forall w :: At(s', w).WriteRows? ==> At(s', w) == At(s, w))
  }

  lemma StillIsTagStep(s: State, s': State)
    requires TagInv(s) && TagsStill(s, s')
    ensures TagStep(s, s')
  {
    forall w, k | At(s', w).WriteRows? && 0 <= k < |At(s', w).rows| ensures RowFrom(s, w, At(s', w).rows[k]) {
      assert At(s, w).rows[k] in At(s, w).rows;
    }
  }

  lemma WorkerMoveStill(s: State, s': State, w: Worker)
    requires s'.noted == s.noted && s'.t.downloads == s.t.downloads
    requires s'.workers == s.workers[w := At(s', w)] && !At(s', w).WriteRows?
    ensures TagsStill(s, s')
  {}

  lemma LinkQueryTags(s: State, s': State, w: Worker, rows: seq<Intent>)
    requires TagInv(s) && LinkQuery(s, s', w, rows)
    ensures TagStep(s, s')
  {
    var listed := At(s, w).listed;
    LinkRowsHaveReceipts(s, listed, rows);
    forall v, k | At(s', v).WriteRows? && 0 <= k < |At(s', v).rows| ensures RowFrom(s, v, At(s', v).rows[k]) {
      if v == w { RestoredOk(s, listed, rows, k); } else { assert At(s, v).rows[k] in At(s, v).rows; }
    }
  }

  lemma UpsertTags(rows: map<DownloadKey, Download>, st: Status, now: Time, k: DownloadKey)
    requires k in rows || RowKey(st) == Some(k)
    ensures k in Upsert(rows, st, now)
    ensures Upsert(rows, st, now)[k].tags == if RowKey(st) == Some(k) then st.tags else rows[k].tags
  {}

  lemma WriteMovesRows(s: State, s': State, w: Worker, v: Worker, k: nat)
    requires WriteRow(s, s', w) && At(s', v).WriteRows? && k < |At(s', v).rows|
    ensures RowFrom(s, v, At(s', v).rows[k])
  {
    if v == w {
      var rows := At(s, w).rows;
      assert rows[1..][k] == rows[k + 1];
    } else {
      assert At(s', v) == At(s, v);
      assert At(s, v).rows[k] in At(s, v).rows;
    }
  }

  lemma WrittenNotes(s: State, w: Worker, k: DownloadKey)
    requires TagInv(s) && At(s, w).WriteRows? && At(s, w).rows != []
    requires k in Written(s, At(s, w).rows[0]).noted
    ensures var s1, row := Written(s, At(s, w).rows[0]), At(s, w).rows[0];
      && k in s1.t.downloads
      && ((k in s.noted && k in s.t.downloads && s1.noted[k] == s.noted[k]
          && s1.t.downloads[k].tags == s.t.downloads[k].tags)
          || (s1.noted[k] == row.links && s1.t.downloads[k].tags == row.st.tags))
  {
    var row := At(s, w).rows[0];
    if RowKey(row.st).Some? {
      UpsertTags(s.t.downloads, row.st, s.clock, k);
    }
  }

  lemma WriteNotes(s: State, s': State, w: Worker, k: DownloadKey)
    requires TagInv(s) && WriteRow(s, s', w) && k in s'.noted
    ensures k in s'.t.downloads && WrittenFrom(s, s', k)
  {
    if At(s, w).rows != [] {
      WrittenNotes(s, w, k);
    }
  }

  lemma WriteTags(s: State, s': State, w: Worker)
    requires TagInv(s) && WriteRow(s, s', w)
    ensures TagStep(s, s')
  {
    forall v, k | At(s', v).WriteRows? && 0 <= k < |At(s', v).rows| ensures RowFrom(s, v, At(s', v).rows[k]) {
      WriteMovesRows(s, s', w, v, k);
    }
    forall k | k in s'.noted ensures k in s'.t.downloads && WrittenFrom(s, s', k) {
      WriteNotes(s, s', w, k);
    }
  }

  lemma CalmTags(s: State, s': State)
    requires TagInv(s) && Calm(s, s')
    ensures TagStep(s, s')
  {
    StillIsTagStep(s, s');
  }

  lemma SendTags(s: State, s': State, w: Worker, reply: Reply)
    requires TagInv(s) && SendAdd(s, s', w, reply)
    ensures TagStep(s, s')
  {
    WorkerMoveStill(s, s', w);
    StillIsTagStep(s, s');
  }

  lemma CommitTags(s: State, s': State, w: Worker, id: IntentId, token: Token, began: Time, required: bool)
    requires TagInv(s) && CommitClaim(s, s', w, id, token, began, required)
    ensures TagStep(s, s')
  {
    WorkerMoveStill(s, s', w);
    StillIsTagStep(s, s');
  }

  lemma StepTags(h: LockIds, s: State, s': State, w: Worker)
    requires TagInv(s) && Step(h, s, s', w)
    ensures TagStep(s, s')
  {
    if reply :| SendAdd(s, s', w, reply) { SendTags(s, s', w, reply); }
    else if rows :| LinkQuery(s, s', w, rows) { LinkQueryTags(s, s', w, rows); }
    else if WriteRow(s, s', w) { WriteTags(s, s', w); }
    else {
      StepIsCalm(h, s, s', w);
      if Calm(s, s') { CalmTags(s, s'); }
      else {
        var id, token, began, required :| CommitClaim(s, s', w, id, token, began, required);
        CommitTags(s, s', w, id, token, began, required);
      }
    }
  }

  lemma NextTags(h: LockIds, s: State, s': State)
    requires TagInv(s) && Next(h, s, s')
    ensures TagStep(s, s')
  {
    var w :| Step(h, s, s', w);
    StepTags(h, s, s', w);
  }

  lemma RunEvolves(h: LockIds, run: seq<State>, k: nat)
    requires Run(h, run) && 0 < k < |run|
    ensures RowsEvolve(run[k - 1], run[k]) && Bookkeeping.Keyed(run[k].t)
  {
    RunDigest(h, run, k);
    DigestEvolves(run[k - 1], run[k]);
    RunKeepsClaimInv(h, run, k);
  }

  lemma {:induction false} RunKeepsTags(h: LockIds, run: seq<State>, k: nat)
    requires Run(h, run) && k < |run|
    ensures TagInv(run[k])
  {
    if k > 0 {
      RunKeepsTags(h, run, k - 1);
      RunNext(h, run, k);
      NextTags(h, run[k - 1], run[k]);
      RunEvolves(h, run, k);
      TagStepKeepsInv(run[k - 1], run[k]);
    }
  }

  // ---- main results ----

  /**
    In every reachable state, each written download carries the intent and book tags of
    every receipt its last write knew of, accepted or already released.
   */
  lemma WrittenDownloadsKeepTheirReceipts(h: LockIds, run: seq<State>, k: nat, key: DownloadKey, id: IntentId)
    requires Run(h, run) && k < |run| && key in run[k].noted && id in run[k].noted[key]
    ensures key in run[k].t.downloads && id in run[k].t.intents && HasReceipt(run[k].t.intents[id])
    ensures Tagged(run[k].t.intents[id], run[k].t.downloads[key].tags)
  {
    RunKeepsTags(h, run, k);
  }

  /**
    A download written with knowledge of a book's receipt, and listed as active again
    (not removed, not failed, not imported), stops every claim for that book at its
    check, even when the receipt's intent was released long ago.
   */
  lemma ActiveDownloadBlocksItsBook(h: LockIds, run: seq<State>, k: nat, s': State, w: Worker, key: DownloadKey,
          id: IntentId)
    requires Run(h, run) && k < |run| && key in run[k].noted && id in run[k].noted[key]
    requires key in run[k].t.downloads
    requires var d := run[k].t.downloads[key]; d.state != "removed" && d.failedAt.None? && d.importStatus != "imported"
    requires CheckNoActive(run[k], s', w) && id in run[k].t.intents
    requires run[k].t.intents[id].request.wantedId == At(run[k], w).c.wantedId && At(run[k], w).c.wantedId != ""
    ensures At(s', w).Idle? && s'.t == run[k].t
  {
    WrittenDownloadsKeepTheirReceipts(h, run, k, key, id);
    assert ActiveFor(run[k].t.downloads[key], At(run[k], w).c.wantedId);
  }

  // ---- how long a tag stays ----

  /** A saved receipt for the download with this key. */
  ghost predicate ReceiptOf(s: State, id: IntentId, key: DownloadKey) {
    id in s.t.intents && HasReceipt(s.t.intents[id]) && s.t.intents[id].externalId != "" && s.t.intents[id].Key() == key
  }

  ghost predicate OnRow(s: State, key: DownloadKey, x: string) {
    key in s.t.downloads && x in s.t.downloads[key].tags
  }

  ghost predicate Carries(row: Noted, key: DownloadKey, x: string) {
    RowKey(row.st) == Some(key) ==> x in row.st.tags
  }

  /** Every write of this row already under way carries the tag. */
  ghost predicate AllCarry(s: State, key: DownloadKey, x: string) {
    forall w :: At(s, w).WriteRows? ==> forall k :: 0 <= k < |At(s, w).rows| ==> Carries(At(s, w).rows[k], key, x)
  }

  /** One of the receipt's own tags is on the row, and on every write of it under way. */
  ghost predicate Safe(s: State, id: IntentId, key: DownloadKey, x: string) {
    ReceiptOf(s, id, key) && OwnTag(s.t.intents[id], x) && OnRow(s, key, x) && AllCarry(s, key, x)
  }

  /** Adapters name their client exactly: no blank and no outer spaces. */
  ghost predicate ExactClients(listed: seq<Status>) {
    forall n :: 0 <= n < |listed| ==> listed[n].client != "" && Trimmed(listed[n].client)
  }

  ghost predicate ExactLists(s: State) {
    forall w :: At(s, w).ReadLinks? ==> ExactClients(At(s, w).listed)
  }

  lemma OwnTagIsTrimmed(i: Intent, x: string)
    requires OwnTag(i, x)
    ensures x != "" && Trimmed(x)
  {
    IntentTagIsTrimmed(i.id);
    WantedTagIsTrimmed(i.request.wantedId);
    TrimmedByTrim(x);
  }

  /** A list read after the receipt brings its tags, whatever the client listed. */
  lemma LinkedCarries(s: State, listed: seq<Status>, rows: seq<Intent>, k: nat, id: IntentId, key: DownloadKey,
          x: string)
    requires Bookkeeping.Keyed(s.t) && ReceiptOf(s, id, key) && OwnTag(s.t.intents[id], x)
    requires ExactClients(listed) && LinkRows(s.t.intents, listed, rows) && k < |listed|
    ensures Carries(Restored(listed, rows)[k], key, x)
  {
    var st, i := listed[k], s.t.intents[id];
    TrimFixesTrimmed(st.client);
    if RowKey(st) == Some(key) {
      assert Linkable(i, listed) && id in LinkableIds(s.t.intents, listed);
      var n :| 0 <= n < |rows| && rows[n] == i;
      OwnTagIsTrimmed(i, x);
      LinkedKeepsTag(st, rows, n, x);
    }
  }

  lemma LinkKeepsSafe(s: State, s': State, w: Worker, rows: seq<Intent>, id: IntentId, key: DownloadKey, x: string)
    requires Bookkeeping.Keyed(s.t) && Safe(s, id, key, x) && ExactLists(s) && LinkQuery(s, s', w, rows)
    ensures OnRow(s', key, x) && AllCarry(s', key, x)
  {
    forall v, k | At(s', v).WriteRows? && 0 <= k < |At(s', v).rows| ensures Carries(At(s', v).rows[k], key, x) {
      if v == w { LinkedCarries(s, At(s, w).listed, rows, k, id, key, x); } else { assert At(s', v) == At(s, v); }
    }
  }

  lemma PendingStillCarries(s: State, s': State, w: Worker, v: Worker, k: nat, key: DownloadKey, x: string)
    requires AllCarry(s, key, x) && WriteRow(s, s', w) && At(s', v).WriteRows? && k < |At(s', v).rows|
    ensures Carries(At(s', v).rows[k], key, x)
  {
    var rows := At(s, w).rows;
    if v == w {
      assert rows[1..][k] == rows[k + 1];
      assert Carries(rows[k + 1], key, x);
    } else {
      assert At(s', v) == At(s, v);
    }
  }

  lemma WriteSetsTags(s: State, s': State, w: Worker, key: DownloadKey)
    requires WriteRow(s, s', w) && At(s, w).rows != []
    requires (key in s.t.downloads || RowKey(At(s, w).rows[0].st) == Some(key))
    ensures key in s'.t.downloads
    ensures s'.t.downloads[key].tags
      == if RowKey(At(s, w).rows[0].st) == Some(key) then At(s, w).rows[0].st.tags else s.t.downloads[key].tags
  {
    UpsertTags(s.t.downloads, At(s, w).rows[0].st, s.clock, key);
  }

  lemma WriteKeepsSafe(s: State, s': State, w: Worker, id: IntentId, key: DownloadKey, x: string)
    requires Safe(s, id, key, x) && WriteRow(s, s', w)
    ensures OnRow(s', key, x) && AllCarry(s', key, x)
  {
    forall v, k | At(s', v).WriteRows? && 0 <= k < |At(s', v).rows| ensures Carries(At(s', v).rows[k], key, x) {
      PendingStillCarries(s, s', w, v, k, key, x);
    }
    if At(s, w).rows != [] {
      assert Carries(At(s, w).rows[0], key, x);
      WriteSetsTags(s, s', w, key);
    }
  }

  lemma StillKeepsSafe(s: State, s': State, id: IntentId, key: DownloadKey, x: string)
    requires Safe(s, id, key, x) && TagsStill(s, s')
    ensures OnRow(s', key, x) && AllCarry(s', key, x)
  {}

  lemma StepKeepsSafe(h: LockIds, s: State, s': State, w: Worker, id: IntentId, key: DownloadKey, x: string)
    requires Bookkeeping.Keyed(s.t) && Safe(s, id, key, x) && ExactLists(s) && Step(h, s, s', w)
    ensures OnRow(s', key, x) && AllCarry(s', key, x)
  {
    if reply :| SendAdd(s, s', w, reply) { WorkerMoveStill(s, s', w); StillKeepsSafe(s, s', id, key, x); }
    else if rows :| LinkQuery(s, s', w, rows) { LinkKeepsSafe(s, s', w, rows, id, key, x); }
    else if WriteRow(s, s', w) { WriteKeepsSafe(s, s', w, id, key, x); }
    else { OtherStepsAreStill(h, s, s', w); StillKeepsSafe(s, s', id, key, x); }
  }

  lemma OtherStepsAreStill(h: LockIds, s: State, s': State, w: Worker)
    requires Bookkeeping.Keyed(s.t) && Step(h, s, s', w) && !Active(s, s', w)
    ensures TagsStill(s, s')
  {
    StepIsCalm(h, s, s', w);
    if !Calm(s, s') {
      var x, token, began, required :| CommitClaim(s, s', w, x, token, began, required);
      WorkerMoveStill(s, s', w);
    }
  }

  lemma ReceiptStays(s: State, s': State, id: IntentId, key: DownloadKey, x: string)
    requires ReceiptOf(s, id, key) && OwnTag(s.t.intents[id], x) && RowsEvolve(s, s')
    ensures ReceiptOf(s', id, key) && OwnTag(s'.t.intents[id], x)
  {}

  lemma {:induction false} SafeStays(h: LockIds, run: seq<State>, i: nat, j: nat, id: IntentId, key: DownloadKey,
          x: string)
    requires Run(h, run) && i <= j < |run| && Safe(run[i], id, key, x)
    requires forall m :: i <= m < j ==> ExactLists(run[m])
    ensures Safe(run[j], id, key, x)
    decreases j
  {
    if i < j {
      SafeStays(h, run, i, j - 1, id, key, x);
      RunKeepsTags(h, run, j - 1);
      RunNext(h, run, j);
      var w :| Step(h, run[j - 1], run[j], w);
      StepKeepsSafe(h, run[j - 1], run[j], w, id, key, x);
      RunEvolves(h, run, j);
      ReceiptStays(run[j - 1], run[j], id, key, x);
    }
  }

  // ---- exactly how long ----

  /** The run goes on, with lists that name their client exactly. */
  ghost predicate Continues(h: LockIds, run: seq<State>, all: seq<State>) {
    run != [] && run <= all && Run(h, all) && forall m :: |run| - 1 <= m < |all| ==> ExactLists(all[m])
  }

  /** No continuation, whatever its lists drop, ever takes the tag off the row. */
  ghost predicate NeverLost(h: LockIds, run: seq<State>, key: DownloadKey, x: string) {
    forall all {:trigger Continues(h, run, all)} :: Continues(h, run, all) ==> OnRow(all[|all| - 1], key, x)
  }

  lemma WritesNext(h: LockIds, run: seq<State>, all: seq<State>, w: Worker) returns (s': State)
    requires Continues(h, run, all) && At(all[|all| - 1], w).WriteRows? && At(all[|all| - 1], w).rows != []
    ensures Continues(h, run, all + [s']) && WriteRow(all[|all| - 1], s', w)
    ensures At(s', w) == WriteRows(At(all[|all| - 1], w).rows[1..], At(all[|all| - 1], w).next)
  {
    var s := all[|all| - 1];
    assert ExactLists(s) && Reachable(h, s);
    s' := Writes(h, s, w);
    RunGrows(h, all, s');
    WriteKeepsExact(s, s', w);
  }

  lemma WriteKeepsExact(s: State, s': State, w: Worker)
    requires ExactLists(s) && WriteRow(s, s', w)
    ensures ExactLists(s')
  {
    forall v | At(s', v).ReadLinks? ensures ExactClients(At(s', v).listed) { assert At(s', v) == At(s, v); }
  }

  /** A pending write without the tag takes it off when its turn comes. */
  lemma {:induction false} PendingLoses(h: LockIds, run: seq<State>, all: seq<State>, w: Worker, n: nat,
          key: DownloadKey, x: string)
      returns (more: seq<State>)
    requires Continues(h, run, all) && At(all[|all| - 1], w).WriteRows? && n < |At(all[|all| - 1], w).rows|
    requires !Carries(At(all[|all| - 1], w).rows[n], key, x)
    ensures Continues(h, run, more) && !OnRow(more[|more| - 1], key, x)
    decreases n
  {
    var s := all[|all| - 1];
    var s' := WritesNext(h, run, all, w);
    more := all + [s'];
    if n == 0 {
      WriteSetsTags(s, s', w, key);
    } else {
      assert At(s, w).rows[1..][n - 1] == At(s, w).rows[n];
      more := PendingLoses(h, run, more, w, n - 1, key, x);
    }
  }

  /**
    A saved receipt's own tag is on the download's row. It stays there over every later
    sequence of client lists, whatever tags they drop, if and only if every write of the
    row that is already under way carries it.
   */
  lemma TagStaysExactly(h: LockIds, run: seq<State>, id: IntentId, key: DownloadKey, x: string)
    requires Run(h, run) && ExactLists(run[|run| - 1])
    requires ReceiptOf(run[|run| - 1], id, key) && OwnTag(run[|run| - 1].t.intents[id], x)
    requires OnRow(run[|run| - 1], key, x)
    ensures NeverLost(h, run, key, x) <==> AllCarry(run[|run| - 1], key, x)
  {
    var n := |run| - 1;
    if AllCarry(run[n], key, x) {
      forall all | Continues(h, run, all) ensures OnRow(all[|all| - 1], key, x) {
        assert all[n] == run[n];
        SafeStays(h, all, n, |all| - 1, id, key, x);
      }
    } else {
      var w, k :| At(run[n], w).WriteRows? && 0 <= k < |At(run[n], w).rows| && !Carries(At(run[n], w).rows[k], key, x);
      assert Continues(h, run, run);
      var all := PendingLoses(h, run, run, w, k, key, x);
    }
  }

  // ---- both tags of a receipt ----

  /** The receipt's intent and book tags are on the row and on every write of it under way. */
  ghost predicate Held(s: State, id: IntentId, key: DownloadKey) {
    ReceiptOf(s, id, key) && forall x :: OwnTag(s.t.intents[id], x) ==> OnRow(s, key, x) && AllCarry(s, key, x)
  }

  /** The row was last written with knowledge of the receipt, and so will every write already under way be. */
  ghost predicate Bound(s: State, id: IntentId, key: DownloadKey) {
    && ReceiptOf(s, id, key)
    && key in s.noted && id in s.noted[key]
    && (forall w :: At(s, w).WriteRows? ==> forall k :: 0 <= k < |At(s, w).rows| ==> Knowing(At(s, w).rows[k], id, key))
  }

  ghost predicate Knowing(row: Noted, id: IntentId, key: DownloadKey) {
    RowKey(row.st) == Some(key) ==> id in row.links
  }

  lemma BoundIsHeld(s: State, id: IntentId, key: DownloadKey)
    requires TagInv(s) && Bound(s, id, key)
    ensures Held(s, id, key)
  {
    forall x | OwnTag(s.t.intents[id], x) ensures OnRow(s, key, x) && AllCarry(s, key, x) {
      assert NotedOk(s, s.noted[key], s.t.downloads[key].tags);
      forall w, k | At(s, w).WriteRows? && 0 <= k < |At(s, w).rows| ensures Carries(At(s, w).rows[k], key, x) {
        assert Knowing(At(s, w).rows[k], id, key) && NotedOk(s, At(s, w).rows[k].links, At(s, w).rows[k].st.tags);
      }
    }
  }

  lemma HeldIsTagged(s: State, id: IntentId, key: DownloadKey)
    requires Held(s, id, key)
    ensures key in s.t.downloads && Tagged(s.t.intents[id], s.t.downloads[key].tags)
  {
    var i := s.t.intents[id];
    assert OwnTag(i, IntentTag(i.id));
    if i.request.wantedId != "" { assert OwnTag(i, WantedTag(i.request.wantedId)); }
  }

  /**
    Durable association: once a receipt's tags are on the row and on every write of it
    under way (a row written with knowledge of the receipt and no older list pending, for
    instance), no later sequence of client lists, whatever tags they drop, ever takes the
    intent and book tags off it again.
   */
  lemma AssociationIsDurable(h: LockIds, run: seq<State>, i: nat, j: nat, id: IntentId, key: DownloadKey)
    requires Run(h, run) && i <= j < |run| && (Held(run[i], id, key) || Bound(run[i], id, key))
    requires forall m :: i <= m < j ==> ExactLists(run[m])
    ensures Held(run[j], id, key) && key in run[j].t.downloads
    ensures Tagged(run[j].t.intents[id], run[j].t.downloads[key].tags)
  {
    RunKeepsTags(h, run, i);
    if Bound(run[i], id, key) { BoundIsHeld(run[i], id, key); }
    var row := run[i].t.intents[id];
    assert OwnTag(row, IntentTag(row.id));
    SafeStays(h, run, i, j, id, key, IntentTag(row.id));
    RowsSettle(h, run, i, j, id);
    forall x | OwnTag(run[j].t.intents[id], x) ensures OnRow(run[j], key, x) && AllCarry(run[j], key, x) {
      SafeStays(h, run, i, j, id, key, x);
    }
    HeldIsTagged(run[j], id, key);
  }

  /**
    So from then on, however the tags are dropped and whatever became of the intent, a
    list that shows the download as active stops every claim for its book at its check.
   */
  lemma ListedAgainBlocks(h: LockIds, run: seq<State>, i: nat, j: nat, id: IntentId, key: DownloadKey, s': State,
          w: Worker)
    requires Run(h, run) && i <= j < |run| && (Held(run[i], id, key) || Bound(run[i], id, key))
    requires forall m :: i <= m < j ==> ExactLists(run[m])
    requires CheckNoActive(run[j], s', w) && At(run[j], w).c.wantedId != ""
    requires id in run[j].t.intents && run[j].t.intents[id].request.wantedId == At(run[j], w).c.wantedId
    requires key in run[j].t.downloads
    requires var d := run[j].t.downloads[key]; d.state != "removed" && d.failedAt.None? && d.importStatus != "imported"
    ensures At(s', w).Idle? && s'.t == run[j].t
  {
    AssociationIsDurable(h, run, i, j, id, key);
    assert ActiveFor(run[j].t.downloads[key], At(run[j], w).c.wantedId);
  }

  /**
    The condition cannot be dropped: a list whose links were read before the acceptance
    can be written after it, and then the row's tags are exactly the pending entry's.
    With tags free of outer spaces, the book tag is there if and only if the client
    listed it or a receipt the link query returned brought it.
   */
  lemma WriteDecidesTags(s: State, s': State, w: Worker, listed: Status, rows: seq<Intent>, key: DownloadKey,
          tag: string)
    requires WriteRow(s, s', w) && At(s, w).rows != [] && At(s, w).rows[0].st == listed.(tags := Linked(listed, rows))
    requires RowKey(listed) == Some(key) && Clean(listed.tags) && tag != ""
    ensures key in s'.t.downloads
    ensures tag in s'.t.downloads[key].tags <==> tag in listed.tags || SomeContributes(rows, listed, tag)
  {
    LinkedContents(listed, rows, tag);
    UpsertTags(s.t.downloads, At(s, w).rows[0].st, s.clock, key);
  }
}
