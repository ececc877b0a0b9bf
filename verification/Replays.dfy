/**
  Replaying a saved receipt: the look for the download's row, the write if it found none,
  and what others may do in between.
 */
module Replays {
  import opened Text
  import opened Records
  import opened Downloads
  import opened Protocol
  import opened ClaimSafety
  import opened Histories
  import opened Runs
  import Bookkeeping

  // ---- a worker between its link query and its repair ----

  predicate Storing(pc: Pc) {
    pc.ReadLinks? || pc.WriteRows? || pc.Finalizing?
  }

  /** The worker's own statements there. */
  ghost predicate StoreStep(s: State, s': State, w: Worker) {
    || (exists rows :: LinkQuery(s, s', w, rows)) || WriteRow(s, s', w) || FinalizeStatement(s, s', w)
        || Crash(s, s', w)
  }

  lemma QuietStepMoves(s: State, s': State, w: Worker)
    requires QuietStep(s, s', w) && Storing(At(s, w))
    ensures StoreStep(s, s', w)
  {
    if e, listed :| ListOnce(s, s', w, e, listed) {} else if reply :| SendAdd(s, s', w, reply) {}
  }

  lemma RowStepMoves(s: State, s': State, w: Worker)
    requires RowStep(s, s', w) && Storing(At(s, w))
    ensures StoreStep(s, s', w) || s'.workers == s.workers
  {
    if ok :| AcceptStatement(s, s', w, ok) {} else if token :| RecoverStatement(s, s', w, token) {}
  }

  lemma RowEffectMoves(s: State, s': State, v: Worker, w: Worker)
    requires RowEffect(s, s', v) && v != w
    ensures At(s', w) == At(s, w)
  {}

  lemma WorldMovesNobody(s: State, s': State)
    requires WorldStep(s, s')
    ensures s'.workers == s.workers
  {
    if k, m :| MarkDownload(s, s', k, m) {
    } else if wanted, releases, kind :| Elsewhere(s, s', wanted, releases, kind) {
    }
  }

  lemma QuietOthersStay(s: State, s': State, v: Worker, w: Worker)
    requires QuietStep(s, s', v) && v != w
    ensures At(s', w) == At(s, w)
  {
    QuietStepEffect(s, s', v);
    RowEffectMoves(s, s', v, w);
  }

  lemma RowOthersStay(s: State, s': State, v: Worker, w: Worker)
    requires Bookkeeping.Keyed(s.t) && RowStep(s, s', v) && v != w
    ensures At(s', w) == At(s, w)
  {
    RowStepEffect(s, s', v);
    RowEffectMoves(s, s', v, w);
  }

  lemma OthersStay(h: LockIds, s: State, s': State, v: Worker, w: Worker)
    requires Bookkeeping.Keyed(s.t) && Step(h, s, s', v) && v != w
    ensures At(s', w) == At(s, w)
  {
    if ClaimStep(h, s, s', v) { ClaimStepIsQuiet(h, s, s', v); }
    else if QuietStep(s, s', v) { QuietOthersStay(s, s', v, w); }
    else if RowStep(s, s', v) { RowOthersStay(s, s', v, w); }
    else if WorldStep(s, s') { WorldMovesNobody(s, s'); }
  }

  /** A storing worker moves only by its own statements. */
  lemma OnlyOwnSteps(h: LockIds, s: State, s': State, w: Worker)
    requires Step(h, s, s', w) && Storing(At(s, w))
    ensures StoreStep(s, s', w) || s'.workers == s.workers
  {
    if ClaimStep(h, s, s', w) { ClaimStepIsQuiet(h, s, s', w); }
    else if QuietStep(s, s', w) { QuietStepMoves(s, s', w); }
    else if RowStep(s, s', w) { RowStepMoves(s, s', w); }
    else if WorldStep(s, s') {
      WorldMovesNobody(s, s');
    }
  }

  // ---- where a replay is ----

  /** From its look at step i on, worker w is busy with this replay up to step j. */
  ghost predicate Replaying(run: seq<State>, w: Worker, i: nat, j: nat) {
    && i < j < |run| && ReplayReceipt(run[i], run[i + 1], w)
    && forall m :: i < m <= j ==> !At(run[m], w).Idle?
  }

  /** The replay's look found the row. */
  predicate Found(look: State, w: Worker)
    requires At(look, w).Replay?
  {
    DownloadKey(At(look, w).status.client, At(look, w).status.id) in look.t.downloads
  }

  /** Where the replay of this receipt can be. */
  ghost predicate PlaceOf(pc: Pc, id: IntentId, status: Status, found: bool) {
    || pc == Finalizing(id)
    || (!found && (pc == ReadLinks([status], Some(id)) || pc == WriteRows([], Some(id)) || Pending(pc, id, status)))
  }

  /** About to write the receipt, with whatever tags its link query gave it. */
  ghost predicate Pending(pc: Pc, id: IntentId, status: Status) {
    pc.WriteRows? && |pc.rows| == 1 && pc.next == Some(id) && pc.rows[0].st == status.(tags := pc.rows[0].st.tags)
  }

  lemma LinkPlace(s: State, s': State, w: Worker, rows: seq<Intent>, id: IntentId, status: Status)
    requires LinkQuery(s, s', w, rows) && At(s, w) == ReadLinks([status], Some(id))
    ensures Pending(At(s', w), id, status)
  {
    assert [status][0] == status;
  }

  lemma WritePlace(s: State, s': State, w: Worker, id: IntentId, status: Status)
    requires WriteRow(s, s', w) && (Pending(At(s, w), id, status) || At(s, w) == WriteRows([], Some(id)))
    ensures At(s', w) == WriteRows([], Some(id)) || At(s', w) == Finalizing(id)
  {
    if Pending(At(s, w), id, status) { assert At(s, w).rows[1..] == []; }
  }

  lemma StoreStepPlace(s: State, s': State, w: Worker, id: IntentId, status: Status, found: bool)
    requires StoreStep(s, s', w) && PlaceOf(At(s, w), id, status, found)
    ensures At(s', w).Idle? || PlaceOf(At(s', w), id, status, found)
  {
    if rows :| LinkQuery(s, s', w, rows) {
      LinkPlace(s, s', w, rows, id, status);
    } else if WriteRow(s, s', w) {
      WritePlace(s, s', w, id, status);
    }
  }

  lemma NextPlace(h: LockIds, s: State, s': State, w: Worker, id: IntentId, status: Status, found: bool)
    requires Bookkeeping.Keyed(s.t) && Next(h, s, s') && PlaceOf(At(s, w), id, status, found)
    ensures At(s', w).Idle? || PlaceOf(At(s', w), id, status, found)
  {
    var v :| Step(h, s, s', v);
    if v != w { OthersStay(h, s, s', v, w); }
    else {
      OnlyOwnSteps(h, s, s', w);
      if StoreStep(s, s', w) { StoreStepPlace(s, s', w, id, status, found); }
    }
  }

  lemma PlaceKept(h: LockIds, run: seq<State>, j: nat, w: Worker, id: IntentId, status: Status, found: bool)
    requires Run(h, run) && 0 < j < |run| && PlaceOf(At(run[j - 1], w), id, status, found)
    ensures At(run[j], w).Idle? || PlaceOf(At(run[j], w), id, status, found)
  {
    RunKeepsClaimInv(h, run, j - 1);
    RunNext(h, run, j);
    NextPlace(h, run[j - 1], run[j], w, id, status, found);
  }

  lemma {:induction false} ReplayPlace(h: LockIds, run: seq<State>, w: Worker, i: nat, j: nat)
    requires Run(h, run) && Replaying(run, w, i, j)
    ensures PlaceOf(At(run[j], w), At(run[i], w).id, At(run[i], w).status, Found(run[i], w))
    decreases j
  {
    if i + 1 < j {
      ReplayPlace(h, run, w, i, j - 1);
      PlaceKept(h, run, j, w, At(run[i], w).id, At(run[i], w).status, Found(run[i], w));
    }
  }

  // ---- what the replay does to rows that exist ----

  /** Everything a client observation sets is as it was. */
  predicate SameObserved(d: Download, e: Download) {
    && d.live == e.live && d.state == e.state && d.progress == e.progress && d.tags == e.tags
    && d.addedAt == e.addedAt && d.completedAt == e.completedAt && d.lastActivityAt == e.lastActivityAt
        && d.lastSeenAt == e.lastSeenAt
    && d.importStatus == e.importStatus && d.failureReason == e.failureReason && d.failedAt == e.failedAt
    && d.retryCount == e.retryCount && d.replacementId == e.replacementId
  }

  /** What a list shows of a row on the spot: live fields, state, progress and tags. */
  predicate SameShown(d: Download, e: Download) {
    d.live == e.live && d.state == e.state && d.progress == e.progress && d.tags == e.tags
  }

  predicate Shows(d: Download, st: Status) {
    d.live == st.live && d.state == st.state && d.progress == st.progress && d.tags == st.tags
  }

  lemma RepairKeeps(s: State, s': State, w: Worker, k: DownloadKey)
    requires Bookkeeping.Keyed(s.t) && FinalizeStatement(s, s', w) && k in s.t.downloads
    ensures k in s'.t.downloads && SameObserved(s.t.downloads[k], s'.t.downloads[k])
  {
    Bookkeeping.RepairKeepsObservations(s.t, At(s, w).id, s.clock, k);
  }

  lemma NothingStored(s: State, s': State, w: Worker)
    requires (exists rows :: LinkQuery(s, s', w, rows)) || Crash(s, s', w)
        || (WriteRow(s, s', w) && At(s, w).rows == [])
    ensures s'.t == s.t
  {}

  lemma NoWriteKeeps(s: State, s': State, w: Worker, k: DownloadKey)
    requires Bookkeeping.Keyed(s.t) && StoreStep(s, s', w) && k in s.t.downloads
    requires !(At(s, w).WriteRows? && At(s, w).rows != [])
    ensures k in s'.t.downloads && SameObserved(s.t.downloads[k], s'.t.downloads[k])
  {
    if FinalizeStatement(s, s', w) { RepairKeeps(s, s', w, k); } else { NothingStored(s, s', w); }
  }

  lemma CrashOrWrite(s: State, s': State, w: Worker, k: DownloadKey)
    requires StoreStep(s, s', w) && At(s, w).WriteRows? && At(s, w).rows != []
    ensures WriteRow(s, s', w) || s'.t == s.t
  {}

  lemma UpsertShows(rows: map<DownloadKey, Download>, st: Status, now: Time, k: DownloadKey)
    requires RowKey(st) == Some(k)
    ensures k in Upsert(rows, st, now) && Shows(Upsert(rows, st, now)[k], st)
  {}

  lemma UpsertElsewhere(rows: map<DownloadKey, Download>, st: Status, now: Time, k: DownloadKey)
    requires RowKey(st) != Some(k) && k in rows
    ensures k in Upsert(rows, st, now) && Upsert(rows, st, now)[k] == rows[k]
  {}

  lemma WriteUpserts(s: State, s': State, w: Worker)
    requires WriteRow(s, s', w) && At(s, w).rows != []
    ensures s'.t.downloads == Upsert(s.t.downloads, At(s, w).rows[0].st, s.clock)
  {}

  /** The replay, having found no row, writes its receipt over one that came in since and shows something else. */
  ghost predicate Resets(look: State, s: State, s': State, w: Worker, k: DownloadKey)
    requires At(look, w).Replay? && k in s.t.downloads
  {
    && WriteRow(s, s', w) && Pending(At(s, w), At(look, w).id, At(look, w).status)
    && RowKey(At(look, w).status) == Some(k) && !Shows(s.t.downloads[k], At(s, w).rows[0].st)
  }

  /**
    One step of a replay and one existing row: if the look found the receipt's row, nothing
    a client observation sets changes; and whatever the look found, what the row shows
    changes exactly when the step is the late write of a receipt whose row was missing.
   */
  lemma ReplayStepExactly(h: LockIds, run: seq<State>, w: Worker, i: nat, j: nat, s': State, k: DownloadKey)
    requires Run(h, run) && Replaying(run, w, i, j) && StoreStep(run[j], s', w) && k in run[j].t.downloads
    ensures k in s'.t.downloads
    ensures Found(run[i], w) ==> SameObserved(run[j].t.downloads[k], s'.t.downloads[k])
    ensures SameShown(run[j].t.downloads[k], s'.t.downloads[k]) <==> !Resets(run[i], run[j], s', w, k)
  {
    var s := run[j];
    ReplayPlace(h, run, w, i, j);
    RunKeepsClaimInv(h, run, j);
    if At(s, w).WriteRows? && At(s, w).rows != [] {
      CrashOrWrite(s, s', w, k);
      if WriteRow(s, s', w) {
        var st := At(s, w).rows[0].st;
        WriteUpserts(s, s', w);
        if RowKey(st) == Some(k) {
          UpsertShows(s.t.downloads, st, s.clock, k);
        } else {
          UpsertElsewhere(s.t.downloads, st, s.clock, k);
        }
      }
    } else {
      NoWriteKeeps(s, s', w, k);
    }
  }

  // ---- over every continuation ----

  /** The run goes on with the replay not yet over. */
  ghost predicate GoesOn(h: LockIds, run: seq<State>, all: seq<State>, w: Worker) {
    2 <= |run| && run <= all && Run(h, all) && Replaying(all, w, |run| - 2, |all| - 1)
  }

  /**
    Whatever happens after the look that ends this run, the replay's own steps leave what
    every existing row shows alone.
   */
  ghost predicate NeverResets(h: LockIds, run: seq<State>, w: Worker) {
    forall all, s', k {:trigger KeepsRow(h, run, all, w, s', k)} :: KeepsRow(h, run, all, w, s', k)
  }

  ghost predicate KeepsRow(h: LockIds, run: seq<State>, all: seq<State>, w: Worker, s': State, k: DownloadKey) {
    var n := |all| - 1;
    GoesOn(h, run, all, w) && StoreStep(all[n], s', w) && k in all[n].t.downloads ==>
      k in s'.t.downloads && SameShown(all[n].t.downloads[k], s'.t.downloads[k])
  }

  lemma FoundKeeps(h: LockIds, run: seq<State>, all: seq<State>, w: Worker, s': State, k: DownloadKey)
    requires 2 <= |run| && ReplayReceipt(run[|run| - 2], run[|run| - 1], w)
    requires Found(run[|run| - 2], w) || RowKey(At(run[|run| - 2], w).status).None?
    ensures KeepsRow(h, run, all, w, s', k)
  {
    var i, n := |run| - 2, |all| - 1;
    if GoesOn(h, run, all, w) && StoreStep(all[n], s', w) && k in all[n].t.downloads {
      assert all[i] == run[i];
      ReplayStepExactly(h, all, w, i, n, s', k);
    }
  }

  lemma LookGoesOn(h: LockIds, run: seq<State>, w: Worker)
    requires Run(h, run) && 2 <= |run| && ReplayReceipt(run[|run| - 2], run[|run| - 1], w)
    ensures GoesOn(h, run, run, w)
  {
    var i := |run| - 2;
    assert run[i + 1] == run[|run| - 1];
    assert !At(run[i + 1], w).Idle?;
  }

  /** Along this path, from the look's result on, the replay is not over. */
  ghost predicate Along(h: LockIds, run: seq<State>, path: seq<State>, w: Worker) {
    run != [] && Path(h, path) && path[0] == run[|run| - 1] && forall k :: 0 <= k < |path| ==> !At(path[k], w).Idle?
  }

  lemma GoesOnAlong(h: LockIds, run: seq<State>, path: seq<State>, w: Worker)
    requires GoesOn(h, run, run, w) && Along(h, run, path, w)
    ensures GoesOn(h, run, run + path[1..], w) && (run + path[1..])[|run| + |path| - 2] == path[|path| - 1]
  {
    RunAlong(h, run, path);
    var all := run + path[1..];
    forall m | |run| - 2 < m <= |all| - 1 ensures !At(all[m], w).Idle? {
      assert all[m] == path[m - (|run| - 1)];
    }
  }

  lemma AlongGrows(h: LockIds, run: seq<State>, path: seq<State>, s': State, w: Worker)
    requires Along(h, run, path, w) && Path(h, path + [s']) && !At(s', w).Idle?
    ensures Along(h, run, path + [s'], w)
  {}

  /** The row shows this entry, whatever its tags. */
  predicate ShowsEntry(t: Tables, k: DownloadKey, st: Status) {
    && k in t.downloads
    && t.downloads[k].live == st.live && t.downloads[k].state == st.state && t.downloads[k].progress == st.progress
  }

  /** Some other worker polls this one entry, */
  lemma OtherPolls(h: LockIds, run: seq<State>, path: seq<State>, w: Worker, st: Status)
      returns (v: Worker, more: seq<State>)
    requires Along(h, run, path, w) && Reachable(h, path[|path| - 1])
    ensures Along(h, run, more, w) && Reachable(h, more[|more| - 1]) && v != w
    ensures At(more[|more| - 1], w) == At(path[|path| - 1], w) && At(more[|more| - 1], v) == ReadLinks([st], None)
    ensures more[|more| - 1].t == path[|path| - 1].t
  {
    v := IdleWorker(path[|path| - 1]);
    var s' := PollsOn(h, path, v, [st]);
    AlongGrows(h, run, path, s', w);
    more := path + [s'];
  }

  /** reads its links, */
  lemma OtherReads(h: LockIds, run: seq<State>, path: seq<State>, w: Worker, v: Worker, st: Status)
      returns (more: seq<State>, rows: seq<Intent>)
    requires Along(h, run, path, w) && Reachable(h, path[|path| - 1]) && Bookkeeping.Keyed(path[|path| - 1].t)
    requires v != w && At(path[|path| - 1], v) == ReadLinks([st], None)
    ensures Along(h, run, more, w) && Reachable(h, more[|more| - 1])
    ensures At(more[|more| - 1], w) == At(path[|path| - 1], w)
    ensures At(more[|more| - 1], v) == WriteRows(Restored([st], rows), None)
  {
    rows := SomeLinkRows(path[|path| - 1].t, [st]);
    var s' := LinksOn(h, path, v, rows);
    AlongGrows(h, run, path, s', w);
    more := path + [s'];
  }

  lemma EntryShows(t: Tables, t': Tables, st: Status, rows: seq<Intent>, now: Time, k: DownloadKey)
    requires RowKey(st) == Some(k) && t' == t.(downloads := Upsert(t.downloads, Restored([st], rows)[0].st, now))
    ensures ShowsEntry(t', k, st)
  {
    UpsertShows(t.downloads, Restored([st], rows)[0].st, now, k);
  }

  /** and stores it. */
  lemma OtherWrites(h: LockIds, run: seq<State>, path: seq<State>, w: Worker, v: Worker, st: Status, rows: seq<Intent>,
          k: DownloadKey)
      returns (more: seq<State>)
    requires Along(h, run, path, w) && Reachable(h, path[|path| - 1]) && RowKey(st) == Some(k)
    requires v != w && At(path[|path| - 1], v) == WriteRows(Restored([st], rows), None)
    ensures Along(h, run, more, w) && Reachable(h, more[|more| - 1]) && ShowsEntry(more[|more| - 1].t, k, st)
    ensures At(more[|more| - 1], w) == At(path[|path| - 1], w)
  {
    var s := path[|path| - 1];
    var s' := WritesOn(h, path, v);
    AlongGrows(h, run, path, s', w);
    EntryShows(s.t, s'.t, st, rows, s.clock, k);
    more := path + [s'];
  }

  lemma OtherStores(h: LockIds, run: seq<State>, path: seq<State>, w: Worker, st: Status, k: DownloadKey)
      returns (more: seq<State>)
    requires Along(h, run, path, w) && Reachable(h, path[|path| - 1]) && Bookkeeping.Keyed(path[|path| - 1].t)
    requires RowKey(st) == Some(k)
    ensures Along(h, run, more, w) && Reachable(h, more[|more| - 1]) && ShowsEntry(more[|more| - 1].t, k, st)
    ensures At(more[|more| - 1], w) == At(path[|path| - 1], w)
  {
    var v, polled := OtherPolls(h, run, path, w, st);
    var read, rows := OtherReads(h, run, polled, w, v, st);
    more := OtherWrites(h, run, read, w, v, st, rows, k);
  }

  /** After a look that missed the row, another worker may store it in any form before the replay's write. */
  lemma Overtaken(h: LockIds, run: seq<State>, w: Worker, st: Status, k: DownloadKey) returns (all: seq<State>)
    requires Run(h, run) && 2 <= |run| && ReplayReceipt(run[|run| - 2], run[|run| - 1], w)
    requires !Found(run[|run| - 2], w) && RowKey(st) == Some(k)
    ensures GoesOn(h, run, all, w) && Reachable(h, all[|all| - 1]) && ShowsEntry(all[|all| - 1].t, k, st)
    ensures Pending(At(all[|all| - 1], w), At(run[|run| - 2], w).id, At(run[|run| - 2], w).status)
  {
    var looked := run[|run| - 1];
    var status := At(run[|run| - 2], w).status;
    LookGoesOn(h, run, w);
    assert Reachable(h, looked);
    RunKeepsClaimInv(h, run, |run| - 1);
    var rows := SomeLinkRows(looked.t, [status]);
    var s1 := LinksOn(h, [looked], w, rows);
    var path := OtherStores(h, run, [looked] + [s1], w, st, k);
    GoesOnAlong(h, run, path, w);
    all := run + path[1..];
  }

  /** And then the replay takes the row back to the receipt. */
  lemma WritesOver(h: LockIds, s: State, w: Worker, id: IntentId, status: Status, k: DownloadKey) returns (s': State)
    requires Reachable(h, s) && Pending(At(s, w), id, status) && RowKey(status) == Some(k)
    ensures WriteRow(s, s', w) && ShowsEntry(s'.t, k, status)
  {
    s' := Writes(h, s, w);
    UpsertShows(s.t.downloads, At(s, w).rows[0].st, s.clock, k);
  }

  lemma MissedIsReset(h: LockIds, run: seq<State>, w: Worker) returns (all: seq<State>, s': State, k: DownloadKey)
    requires Run(h, run) && 2 <= |run| && ReplayReceipt(run[|run| - 2], run[|run| - 1], w)
    requires !Found(run[|run| - 2], w) && RowKey(At(run[|run| - 2], w).status).Some?
    ensures !KeepsRow(h, run, all, w, s', k)
  {
    var id, status := At(run[|run| - 2], w).id, At(run[|run| - 2], w).status;
    k := RowKey(status).value;
    all := Overtaken(h, run, w, status.(progress := status.progress + 1.0), k);
    s' := WritesOver(h, all[|all| - 1], w, id, status, k);
  }

  /** A replay can never reset a row exactly when its look found one; a receipt without an id never writes any. */
  lemma ReplayKeepsRowsExactly(h: LockIds, run: seq<State>, w: Worker)
    requires Run(h, run) && 2 <= |run| && ReplayReceipt(run[|run| - 2], run[|run| - 1], w)
    ensures NeverResets(h, run, w) <==> Found(run[|run| - 2], w) || RowKey(At(run[|run| - 2], w).status).None?
  {
    if Found(run[|run| - 2], w) || RowKey(At(run[|run| - 2], w).status).None? {
      forall all, s', k ensures KeepsRow(h, run, all, w, s', k) { FoundKeeps(h, run, all, w, s', k); }
    } else {
      var all, s', k := MissedIsReset(h, run, w);
      assert !KeepsRow(h, run, all, w, s', k);
    }
  }
}
