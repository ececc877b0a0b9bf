/**
  A downloads row column by column: over any history of observations and marks each
  column shows what the newest operation that wrote it wrote, and what that is. Also what a
  row starts with, and which row an entry of a list names.
 */
module RowHistory {
  import opened Text
  import opened Records
  import opened Downloads

  datatype Column = State | LastSeen | Import | ImportErr | File | ImportTime | Reason | FailTime | Retries | Replaced

  datatype Cell = Words(text: string) | When(at: Option<Time>) | Maybe(id: Option<string>) | Count(n: int)

  function CellOf(d: Download, f: Column): Cell {
    match f
    case State => Words(d.state)
    case LastSeen => When(Some(d.lastSeenAt))
    case Import => Words(d.importStatus)
    case ImportErr => Words(d.importError)
    case File => Maybe(d.importedFileId)
    case ImportTime => When(d.importedAt)
    case Reason => Words(d.failureReason)
    case FailTime => When(d.failedAt)
    case Retries => Count(d.retryCount)
    case Replaced => Words(d.replacementId)
  }

  /** A client reports the download as finished. */
  predicate Finished(st: Status) { st.completedAt.Some? || st.progress >= 1.0 }

  /** What an observation writes to a column of a row that stands as d; None leaves the cell alone. */
  function ObservationWrites(d: Download, st: Status, now: Time, f: Column): Option<Cell> {
    match f
    case State => Some(Words(st.state))
    case LastSeen => Some(When(Some(if st.lastSeenAt.Some? then st.lastSeenAt.value else now)))
    case Import =>
      if d.importStatus != "imported" && d.importStatus != "error" && Finished(st) then Some(Words("ready")) else None
    case Reason => if st.failureReason == "" then None else Some(Words(st.failureReason))
    case FailTime => if st.failedAt.None? then None else Some(When(st.failedAt))
    case Retries => if st.retryCount <= d.retryCount then None else Some(Count(st.retryCount))
    case Replaced => if st.replacementId == "" then None else Some(Words(st.replacementId))
    case _ => None
  }

  function MarkWrites(d: Download, m: Mark, now: Time, f: Column): Option<Cell> {
    match (m, f)
    case (Deleted, State) => Some(Words("removed"))
    case (Deleted, LastSeen) => Some(When(Some(now)))
    case (Failed(reason), Reason) => Some(Words(Trim(reason)))
    case (Failed(_), FailTime) => if d.failedAt.Some? then None else Some(When(Some(now)))
    case (ClearFailure, Reason) => Some(Words(""))
    case (ClearFailure, FailTime) => Some(When(None))
    case (ClearFailure, ImportErr) => Some(Words(""))
    case (ClearFailure, Replaced) => Some(Words(""))
    case (ClearFailure, Import) => if d.importStatus == "error" then Some(Words("pending")) else None
    case (Replacement(_), Retries) => Some(Count(d.retryCount + 1))
    case (Replacement(id), Replaced) => Some(Words(Trim(id)))
    case (Imported(_), Import) => Some(Words("imported"))
    case (Imported(_), ImportTime) => Some(When(Some(now)))
    case (Imported(_), ImportErr) => Some(Words(""))
    case (Imported(id), File) => Some(Maybe(if Trim(id) == "" then None else Some(Trim(id))))
    case (ImportError(_), Import) => Some(Words("error"))
    case (ImportError(message), ImportErr) => Some(Words(Trim(message)))
    case _ => None
  }

  function Writes(d: Download, op: RowOp, now: Time, f: Column): Option<Cell> {
    match op
    case Observe(st) => ObservationWrites(d, st, now, f)
    case Marked(m) => MarkWrites(d, m, now, f)
  }

  lemma WritesOne(d: Download, op: RowOp, now: Time, f: Column)
    ensures CellOf(ApplyOp(d, op, now), f)
      == if Writes(d, op, now, f).Some? then Writes(d, op, now, f).value else CellOf(d, f)
  {}

  /** The j-th operation writes the column of the row as it then stands. */
  ghost predicate WritesAt(d: Download, ops: seq<(RowOp, Time)>, f: Column, j: int) {
    0 <= j < |ops| && Writes(Replay(d, ops[..j]), ops[j].0, ops[j].1, f).Some?
  }

  lemma LastOp(d: Download, ops: seq<(RowOp, Time)>, n: nat)
    requires 0 < n <= |ops|
    ensures Replay(d, ops[..n]) == ApplyOp(Replay(d, ops[..n - 1]), ops[n - 1].0, ops[n - 1].1)
  {
    assert ops[..n][..n - 1] == ops[..n - 1];
  }

  lemma {:induction false} UnwrittenUpTo(d: Download, ops: seq<(RowOp, Time)>, f: Column, k: nat, n: nat)
    requires k <= n <= |ops| && forall j :: k <= j < n ==> !WritesAt(d, ops, f, j)
    ensures CellOf(Replay(d, ops[..n]), f) == CellOf(Replay(d, ops[..k]), f)
    decreases n
  {
    if k < n {
      UnwrittenUpTo(d, ops, f, k, n - 1);
      LastOp(d, ops, n);
      assert !WritesAt(d, ops, f, n - 1);
      WritesOne(Replay(d, ops[..n - 1]), ops[n - 1].0, ops[n - 1].1, f);
    }
  }

  /** Each column shows what the newest operation that wrote it wrote. */
  lemma NewestWriteStands(d: Download, ops: seq<(RowOp, Time)>, f: Column, k: nat)
    requires WritesAt(d, ops, f, k) && forall j :: k < j < |ops| ==> !WritesAt(d, ops, f, j)
    ensures Some(CellOf(Replay(d, ops), f)) == Writes(Replay(d, ops[..k]), ops[k].0, ops[k].1, f)
  {
    assert ops[..|ops|] == ops;
    UnwrittenUpTo(d, ops, f, k + 1, |ops|);
    LastOp(d, ops, k + 1);
    WritesOne(Replay(d, ops[..k]), ops[k].0, ops[k].1, f);
  }

  /** A cell no operation wrote is as it was. */
  lemma UnwrittenStays(d: Download, ops: seq<(RowOp, Time)>, f: Column)
    requires forall j :: 0 <= j < |ops| ==> !WritesAt(d, ops, f, j)
    ensures CellOf(Replay(d, ops), f) == CellOf(d, f)
  {
    assert ops[..|ops|] == ops && ops[..0] == [];
    UnwrittenUpTo(d, ops, f, 0, |ops|);
  }

  // ---- the import state ----

  function OnError(op: RowOp): Effect {
    match op
    case Marked(ImportError(_)) => On
    case Marked(Imported(_)) => Off
    case Marked(ClearFailure) => Off
    case _ => Keep
  }

  function ErrorEffects(ops: seq<(RowOp, Time)>): seq<Effect> {
    if ops == [] then [] else ErrorEffects(ops[..|ops| - 1]) + [OnError(ops[|ops| - 1].0)]
  }

  /** A row is in import error exactly when its last error mark is newer than every import mark and every clear. */
  lemma {:induction false} ErrorExactly(d: Download, ops: seq<(RowOp, Time)>)
    ensures Replay(d, ops).importStatus == "error" <==> LastSaysOn(d.importStatus == "error", ErrorEffects(ops))
  {
    if ops != [] {
      var init, last := ops[..|ops| - 1], ops[|ops| - 1];
      ErrorExactly(d, init);
      LastSaysOnStep(d.importStatus == "error", ErrorEffects(init), OnError(last.0));
    }
  }

  /** A finished report makes a row ready that is neither imported nor in error; an import or error mark ends that. */
  function ReadyEffects(d: Download, ops: seq<(RowOp, Time)>): seq<Effect> {
    if ops == [] then []
    else
      var init, op := ops[..|ops| - 1], ops[|ops| - 1].0;
      var was := Replay(d, init).importStatus;
      ReadyEffects(d, init) + [
        match op
        case Observe(st) =>
          if (st.completedAt.Some? || st.progress >= 1.0) && was != "imported" && was != "error" then On else Keep
        case Marked(Imported(_)) => Off
        case Marked(ImportError(_)) => Off
        case _ => Keep
      ]
  }

  /**
    A row is ready to import exactly when the last finished report it took is newer than every
    import and error mark.
   */
  lemma {:induction false} ReadyExactly(d: Download, ops: seq<(RowOp, Time)>)
    ensures Replay(d, ops).importStatus == "ready" <==> LastSaysOn(d.importStatus == "ready", ReadyEffects(d, ops))
  {
    if ops != [] {
      var n := |ops| - 1;
      var init := ops[..n];
      ReadyExactly(d, init);
      LastSaysOnStep(d.importStatus == "ready", ReadyEffects(d, init), ReadyEffects(d, ops)[|ReadyEffects(d, init)|]);
    }
  }

  lemma ReadyByOne(d: Download, op: RowOp, now: Time)
    requires (op.Observe? && (op.st.completedAt.Some? || op.st.progress >= 1.0)
              && d.importStatus != "imported" && d.importStatus != "error")
             || (d.importStatus == "ready" && (op.Marked? ==> !op.mark.Imported? && !op.mark.ImportError?))
    ensures ApplyOp(d, op, now).importStatus == "ready"
  {}

  lemma {:induction false} ReadyUpTo(d: Download, ops: seq<(RowOp, Time)>, k: nat, n: nat)
    requires k < n <= |ops| && ops[k].0.Observe? && (ops[k].0.st.completedAt.Some? || ops[k].0.st.progress >= 1.0)
    requires Replay(d, ops[..k]).importStatus != "imported" && Replay(d, ops[..k]).importStatus != "error"
    requires forall j :: k < j < n && ops[j].0.Marked? ==> !ops[j].0.mark.Imported? && !ops[j].0.mark.ImportError?
    ensures Replay(d, ops[..n]).importStatus == "ready"
    decreases n
  {
    if k < n - 1 { ReadyUpTo(d, ops, k, n - 1); }
    LastOp(d, ops, n);
    ReadyByOne(Replay(d, ops[..n - 1]), ops[n - 1].0, ops[n - 1].1);
  }

  /** So a finished download is ready at once, unless it is imported or in error, and stays so until it is marked. */
  lemma FinishedIsReady(d: Download, ops: seq<(RowOp, Time)>, k: nat)
    requires k < |ops| && ops[k].0.Observe? && (ops[k].0.st.completedAt.Some? || ops[k].0.st.progress >= 1.0)
    requires Replay(d, ops[..k]).importStatus != "imported" && Replay(d, ops[..k]).importStatus != "error"
    requires forall j :: k < j < |ops| && ops[j].0.Marked? ==> !ops[j].0.mark.Imported? && !ops[j].0.mark.ImportError?
    ensures Replay(d, ops).importStatus == "ready"
  {
    assert ops[..|ops|] == ops;
    ReadyUpTo(d, ops, k, |ops|);
  }

  // ---- how a row starts, and which row an entry names ----

  /** The first entry of a download inserts its row: as listed, with the client's own import text if it gave one. */
  lemma FirstEntryInserts(rows: map<DownloadKey, Download>, st: Status, now: Time, k: DownloadKey)
    requires RowKey(st) == Some(k) && k !in rows
    ensures k in Upsert(rows, st, now)
    ensures var d := Upsert(rows, st, now)[k];
      && d.live == st.live && d.state == st.state && d.progress == st.progress && d.tags == st.tags
      && d.addedAt == st.addedAt && d.completedAt == st.completedAt && d.lastActivityAt == st.lastActivityAt
      && d.lastSeenAt == (if st.lastSeenAt.Some? then st.lastSeenAt.value else now)
      && d.importStatus == (if Trim(st.importStatus) != "" then Trim(st.importStatus)
                            else if st.completedAt.Some? || st.progress >= 1.0 then "ready" else "pending")
      && d.importError == "" && d.importedFileId.None? && d.importedAt.None?
      && d.failureReason == st.failureReason && d.failedAt == st.failedAt && d.retryCount == st.retryCount
      && d.replacementId == st.replacementId && d.releaseId.None? && d.link.None?
  {}

  /** An entry names the row of its client and its untouched id; a blank client means qBittorrent, a blank id no row. */
  lemma EntryNames(st: Status, k: DownloadKey)
    ensures RowKey(st) == Some(k) <==>
      && k.externalId == st.id && (exists n :: 0 <= n < |st.id| && !IsSpace(st.id[n]))
      && k.client ==
           if exists n :: 0 <= n < |st.client| && !IsSpace(st.client[n]) then Trim(st.client) else "qBittorrent"
  {
    BlankExactly(st.id);
    BlankExactly(st.client);
  }

  /** Writing a list that names a new row inserts its first entry, and the others are observations of it. */
  lemma {:induction false} NewRowIsReplay(rows: map<DownloadKey, Download>, listed: seq<Status>, now: Time,
          k: DownloadKey)
    requires k !in rows && EntriesFor(listed, k, now) != []
    ensures k in UpsertAll(rows, listed, now)
    ensures var entries := EntriesFor(listed, k, now);
      entries[0].0.Observe? && UpsertAll(rows, listed, now)[k] == Replay(Insert(entries[0].0.st, now), entries[1..])
  {
    var init, st := listed[..|listed| - 1], listed[|listed| - 1];
    var before := EntriesFor(init, k, now);
    UpsertAllIsReplay(rows, init, now, k);
    if before == [] {
      assert EntriesFor(listed, k, now) == [(Observe(st), now)];
    } else {
      NewRowIsReplay(rows, init, now, k);
      UpsertOne(UpsertAll(rows, init, now), st, now, k);
      if RowKey(st) == Some(k) {
        assert (before + [(Observe(st), now)])[1..] == before[1..] + [(Observe(st), now)];
        ReplaySnoc(Insert(before[0].0.st, now), before[1..], Observe(st), now);
      } else {
        assert EntriesFor(listed, k, now) == before;
      }
    }
  }
}
