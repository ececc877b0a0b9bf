/**
  What one statement of store.go does to one downloads row, and what a row keeps
  over any interleaving of client observations and explicit marks.
 */
module Downloads {
  import opened Text
  import opened Records

  // ---- UpsertDownloads ----

  /** An entry with a blank id is skipped; a blank client means qBittorrent. */
  function RowKey(st: Status): Option<DownloadKey> {
    if Trim(st.id) == "" then None
    else Some(DownloadKey(if Trim(st.client) == "" then "qBittorrent" else Trim(st.client), st.id))
  }

  function ImportStatusFor(st: Status): string {
    if Trim(st.importStatus) != "" then Trim(st.importStatus)
    else if st.completedAt.Some? || st.progress >= 1.0 then "ready"
    else "pending"
  }

  function Coalesce<T>(a: Option<T>, b: Option<T>): Option<T> {
    if a.Some? then a else b
  }

  function Insert(st: Status, now: Time): Download {
    Download(st.live, st.state, st.progress, st.tags, st.addedAt, st.completedAt, st.lastActivityAt,
             if st.lastSeenAt.Some? then st.lastSeenAt.value else now,
             ImportStatusFor(st), "", None, None, st.failureReason, st.failedAt, st.retryCount, st.replacementId, None,
                 None)
  }

  /** The `on conflict do update` clause. */
  function Merge(d: Download, st: Status, now: Time): Download {
    d.(live := st.live, state := st.state, progress := st.progress, tags := st.tags,
       addedAt := Coalesce(st.addedAt, d.addedAt),
       completedAt := Coalesce(st.completedAt, d.completedAt),
       lastActivityAt := Coalesce(st.lastActivityAt, d.lastActivityAt),
       lastSeenAt := if st.lastSeenAt.Some? then st.lastSeenAt.value else now,
       importStatus := if d.importStatus == "imported" || d.importStatus == "error" then d.importStatus
                       else if st.completedAt.Some? || st.progress >= 1.0 then "ready" else d.importStatus,
       failureReason := if st.failureReason != "" then st.failureReason else d.failureReason,
       failedAt := Coalesce(st.failedAt, d.failedAt),
       retryCount := if d.retryCount >= st.retryCount then d.retryCount else st.retryCount,
       replacementId := if st.replacementId != "" then st.replacementId else d.replacementId)
  }

  function Upsert(rows: map<DownloadKey, Download>, st: Status, now: Time): map<DownloadKey, Download> {
    var key := RowKey(st);
    if key.None? then rows
    else if key.value in rows then rows[key.value := Merge(rows[key.value], st, now)]
    else rows[key.value := Insert(st, now)]
  }

  // ---- MarkDownload*, ClearDownloadFailure ----

  datatype Mark =
    | Deleted
    | Failed(reason: string)
    | ClearFailure
    | Replacement(id: string)
    | Imported(fileId: string)
    | ImportError(message: string)

  function ApplyMark(d: Download, m: Mark, now: Time): Download {
    match m
    case Deleted => d.(state := "removed", lastSeenAt := now)
    case Failed(reason) => d.(failureReason := Trim(reason), failedAt := Coalesce(d.failedAt, Some(now)))
    case ClearFailure =>
      d.(failureReason := "", failedAt := None, importError := "", replacementId := "",
         importStatus := if d.importStatus == "error" then "pending" else d.importStatus)
    case Replacement(id) => d.(retryCount := d.retryCount + 1, replacementId := Trim(id))
    case Imported(fileId) =>
      d.(importStatus := "imported", importedAt := Some(now), importError := "",
         importedFileId := if Trim(fileId) == "" then None else Some(Trim(fileId)))
    case ImportError(message) => d.(importStatus := "error", importError := Trim(message))
  }

  /** The rows an external id may mean: scoped to a client, or to any client when none is named. */
  function Candidates(rows: map<DownloadKey, Download>, externalId: string, client: string): set<DownloadKey> {
    set k | k in rows && k.externalId == externalId && (client == "" || Lower(k.client) == Lower(client))
  }

  // ---- a row's history ----

  datatype RowOp = Observe(st: Status) | Marked(mark: Mark)

  function ApplyOp(d: Download, op: RowOp, now: Time): Download {
    match op
    case Observe(st) => Merge(d, st, now)
    case Marked(m) => ApplyMark(d, m, now)
  }

  /** A row after any interleaving of observations and marks, each at its own time. */
  function Replay(d: Download, ops: seq<(RowOp, Time)>): Download {
    if ops == [] then d
    else
      var last := ops[|ops| - 1];
      ApplyOp(Replay(d, ops[..|ops| - 1]), last.0, last.1)
  }

  /** What one operation says about a yes/no property of the row. */
  datatype Effect = On | Off | Keep

  /** The newest operation that says anything says yes; or nothing says anything and it held at the start. */
  ghost predicate LastSaysOn(initially: bool, effects: seq<Effect>) {
    || (initially && NoOffAfter(effects, -1))
    || exists j :: 0 <= j < |effects| && effects[j] == On && NoOffAfter(effects, j)
  }

  ghost predicate NoOffAfter(effects: seq<Effect>, j: int) {
    forall k :: j < k < |effects| && 0 <= k ==> effects[k] != Off
  }

  lemma LastSaysOnStep(initially: bool, init: seq<Effect>, last: Effect)
    ensures LastSaysOn(initially, init + [last]) <==> last == On || (last == Keep && LastSaysOn(initially, init))
  {
    var all := init + [last];
    var n := |init|;
    assert all[n] == last;
    if last == On {
      assert NoOffAfter(all, n);
    } else if last == Keep {
      assert forall j :: NoOffAfter(all, j) <==> NoOffAfter(init, j) by {
        assert forall k :: 0 <= k < n ==> all[k] == init[k];
      }
    } else {
      assert forall j :: j < n ==> !NoOffAfter(all, j);
    }
  }

  function OnImported(op: RowOp): Effect {
    match op
    case Marked(Imported(_)) => On
    case Marked(ImportError(_)) => Off
    case _ => Keep
  }

  function OnFailed(op: RowOp): Effect {
    match op
    case Observe(st) => if st.failedAt.Some? then On else Keep
    case Marked(Failed(_)) => On
    case Marked(ClearFailure) => Off
    case _ => Keep
  }

  function ImportedEffects(ops: seq<(RowOp, Time)>): seq<Effect> {
    if ops == [] then [] else ImportedEffects(ops[..|ops| - 1]) + [OnImported(ops[|ops| - 1].0)]
  }

  function FailedEffects(ops: seq<(RowOp, Time)>): seq<Effect> {
    if ops == [] then [] else FailedEffects(ops[..|ops| - 1]) + [OnFailed(ops[|ops| - 1].0)]
  }

  /** A row is imported exactly when its last import mark is newer than every recorded import error. */
  lemma {:induction false} ImportedExactly(d: Download, ops: seq<(RowOp, Time)>)
    ensures Replay(d, ops).importStatus == "imported" <==>
        LastSaysOn(d.importStatus == "imported", ImportedEffects(ops))
  {
    if ops != [] {
      var init, last := ops[..|ops| - 1], ops[|ops| - 1];
      ImportedExactly(d, init);
      LastSaysOnStep(d.importStatus == "imported", ImportedEffects(init), OnImported(last.0));
    }
  }

  /** A row is failed exactly when the last thing that failed it is newer than every explicit clear. */
  lemma {:induction false} FailedExactly(d: Download, ops: seq<(RowOp, Time)>)
    ensures Replay(d, ops).failedAt.Some? <==> LastSaysOn(d.failedAt.Some?, FailedEffects(ops))
  {
    if ops != [] {
      var init, last := ops[..|ops| - 1], ops[|ops| - 1];
      FailedExactly(d, init);
      LastSaysOnStep(d.failedAt.Some?, FailedEffects(init), OnFailed(last.0));
    }
  }

  function Replacements(ops: seq<(RowOp, Time)>): nat {
    if ops == [] then 0
    else
      var op := ops[|ops| - 1].0;
      Replacements(ops[..|ops| - 1]) + if op.Marked? && op.mark.Replacement? then 1 else 0
  }

  /** Retry counts never fall, count every recorded replacement, and never fall below what a client list reported. */
  lemma {:induction false} RetriesNeverFall(d: Download, ops: seq<(RowOp, Time)>)
    ensures Replay(d, ops).retryCount >= d.retryCount + Replacements(ops)
    ensures forall k :: 0 <= k < |ops| && ops[k].0.Observe? ==> Replay(d, ops).retryCount >= ops[k].0.st.retryCount
  {
    if ops != [] {
      var init := ops[..|ops| - 1];
      RetriesNeverFall(d, init);
      forall k | 0 <= k < |ops| && ops[k].0.Observe? ensures Replay(d, ops).retryCount >= ops[k].0.st.retryCount {
        if k < |ops| - 1 { assert init[k] == ops[k]; }
      }
    }
  }

  /** Observations and marks never touch the acquisition link, the release link, or (marks) the tags. */
  lemma {:induction false} LinksAreLocal(d: Download, ops: seq<(RowOp, Time)>)
    ensures Replay(d, ops).link == d.link && Replay(d, ops).releaseId == d.releaseId
    ensures (forall k :: 0 <= k < |ops| ==> ops[k].0.Marked?) ==> Replay(d, ops).tags == d.tags
  {
    if ops != [] {
      var init := ops[..|ops| - 1];
      LinksAreLocal(d, init);
      if forall k :: 0 <= k < |ops| ==> ops[k].0.Marked? {
        forall k | 0 <= k < |init| ensures init[k].0.Marked? { assert init[k] == ops[k]; }
        assert ops[|ops| - 1].0.Marked?;
      }
    }
  }

  /** The newest of these operations that is an observation. */
  ghost predicate NewestSeen(ops: seq<(RowOp, Time)>, k: int) {
    0 <= k < |ops| && ops[k].0.Observe? && forall j :: k < j < |ops| ==> !ops[j].0.Observe?
  }

  /** Live fields, progress and tags are those of the newest observation. */
  lemma {:induction false} RowShowsTheNewest(d: Download, ops: seq<(RowOp, Time)>, k: int)
    requires NewestSeen(ops, k)
    ensures var r, st := Replay(d, ops), ops[k].0.st;
      r.live == st.live && r.progress == st.progress && r.tags == st.tags
  {
    var n := |ops| - 1;
    if k < n {
      var init := ops[..n];
      assert forall j :: 0 <= j < n ==> init[j] == ops[j];
      assert ops[n].0.Marked?;
      RowShowsTheNewest(d, init, k);
    }
  }

  datatype DateField = Added | Completed | LastActive

  function Said(st: Status, f: DateField): Option<Time> {
    match f
    case Added => st.addedAt
    case Completed => st.completedAt
    case LastActive => st.lastActivityAt
  }

  function Known(d: Download, f: DateField): Option<Time> {
    match f
    case Added => d.addedAt
    case Completed => d.completedAt
    case LastActive => d.lastActivityAt
  }

  predicate Says(op: RowOp, f: DateField) {
    op.Observe? && Said(op.st, f).Some?
  }

  lemma DateByOp(d: Download, op: RowOp, now: Time, f: DateField)
    ensures Known(ApplyOp(d, op, now), f) == if Says(op, f) then Said(op.st, f) else Known(d, f)
  {}

  lemma {:induction false} DateUnsaid(d: Download, ops: seq<(RowOp, Time)>, f: DateField)
    requires forall k :: 0 <= k < |ops| ==> !Says(ops[k].0, f)
    ensures Known(Replay(d, ops), f) == Known(d, f)
  {
    if ops != [] {
      var n := |ops| - 1;
      DateUnsaid(d, ops[..n], f);
      DateByOp(Replay(d, ops[..n]), ops[n].0, ops[n].1, f);
    }
  }

  lemma {:induction false} DateSaid(d: Download, ops: seq<(RowOp, Time)>, f: DateField, k: nat)
    requires k < |ops| && Says(ops[k].0, f) && forall j :: k < j < |ops| ==> !Says(ops[j].0, f)
    ensures Known(Replay(d, ops), f) == Said(ops[k].0.st, f)
  {
    var n := |ops| - 1;
    if k < n {
      assert ops[..n][k] == ops[k] && forall j :: k < j < n ==> ops[..n][j] == ops[j];
      DateSaid(d, ops[..n], f, k);
    }
    DateByOp(Replay(d, ops[..n]), ops[n].0, ops[n].1, f);
  }

  /** A known date stays until an observation reports a newer one; a list that omits it never erases it. */
  lemma DatesStay(d: Download, ops: seq<(RowOp, Time)>, f: DateField)
    ensures (forall k :: 0 <= k < |ops| ==> !Says(ops[k].0, f)) ==> Known(Replay(d, ops), f) == Known(d, f)
    ensures forall k :: 0 <= k < |ops| && Says(ops[k].0, f) && (forall j :: k < j < |ops| ==> !Says(ops[j].0, f)) ==>
      Known(Replay(d, ops), f) == Said(ops[k].0.st, f)
  {
    if forall k :: 0 <= k < |ops| ==> !Says(ops[k].0, f) { DateUnsaid(d, ops, f); }
    forall k | 0 <= k < |ops| && Says(ops[k].0, f) && (forall j :: k < j < |ops| ==> !Says(ops[j].0, f))
      ensures Known(Replay(d, ops), f) == Said(ops[k].0.st, f)
    {
      DateSaid(d, ops, f, k);
    }
  }

  // ---- restoreAcquisitionLinks ----

  function StateKey(client: string, id: string): string {
    Lower(Trim(client)) + ":" + Trim(id)
  }

  /** One row of the link query: a receipt, accepted or already released, of a listed download. */
  predicate Linkable(i: Intent, listed: seq<Status>) {
    && i.externalId != ""
    && (i.phase.Accepted? || i.phase.Released?)
    && exists n :: 0 <= n < |listed| && listed[n].client == i.request.client && listed[n].id == i.externalId
  }

  function LinkableIds(intents: map<IntentId, Intent>, listed: seq<Status>): set<IntentId> {
    set id | id in intents && Linkable(intents[id], listed)
  }

  /** An order in which the link query may return its rows; repeats are harmless. */
  ghost predicate LinkRows(intents: map<IntentId, Intent>, listed: seq<Status>, rows: seq<Intent>) {
    && (forall k :: 0 <= k < |rows| ==> rows[k].id in LinkableIds(intents, listed) && rows[k] == intents[rows[k].id])
    && (forall id :: id in LinkableIds(intents, listed) ==> intents[id] in rows)
  }

  function Attach(tags: seq<string>, i: Intent): seq<string> {
    var tagged := CompactStrings(tags + ["librarry", IntentTag(i.id)]);
    if i.request.wantedId != "" then CompactStrings(tagged + [WantedTag(i.request.wantedId)]) else tagged
  }

  /** The tags of one listed download after the query rows, in whatever order the query returned them. */
  function Linked(st: Status, rows: seq<Intent>): seq<string> {
    if rows == [] then st.tags
    else
      var i := rows[|rows| - 1];
      var before := Linked(st, rows[..|rows| - 1]);
      if SameDownload(st, i) then Attach(before, i) else before
  }

  predicate SameDownload(st: Status, i: Intent) {
    StateKey(i.request.client, i.externalId) == StateKey(st.client, st.id)
  }

  /** No tag has outer spaces: what splitting and compacting leave in a tag list. */
  predicate Clean(tags: seq<string>) {
    forall k :: 0 <= k < |tags| ==> Trimmed(tags[k])
  }

  lemma {:induction false} CompactIsClean(values: seq<string>, seen: set<string>)
    ensures Clean(CompactFrom(values, seen))
  {
    if values != [] {
      TrimSpec(values[0]);
      CompactIsClean(values[1..], seen);
      CompactIsClean(values[1..], seen + {Trim(values[0])});
    }
  }

  lemma CompactKeeps(values: seq<string>, x: string)
    requires Clean(values) && x != ""
    ensures x in CompactStrings(values) <==> x in values
    ensures Clean(CompactStrings(values))
  {
    CompactContents(values, {}, x);
    CompactIsClean(values, {});
    forall k | 0 <= k < |values| ensures Trim(values[k]) == values[k] { TrimFixesTrimmed(values[k]); }
    if x in values {
      var k :| 0 <= k < |values| && values[k] == x;
      assert Trim(values[k]) == x;
    }
  }

  /** The tags one receipt contributes. */
  ghost predicate Contributes(i: Intent, x: string) {
    x == "librarry" || x == IntentTag(i.id) || (i.request.wantedId != "" && x == WantedTag(i.request.wantedId))
  }

  lemma AppendContents<T>(s: seq<T>, a: T, b: T, x: T)
    ensures x in s + [a, b] <==> x in s || x == a || x == b
    ensures x in s + [a] <==> x in s || x == a
  {
    assert (s + [a, b])[|s|] == a && (s + [a, b])[|s| + 1] == b && (s + [a])[|s|] == a;
  }

  lemma BasicTags(tags: seq<string>, id: IntentId, x: string)
    requires Clean(tags) && x != ""
    ensures var tagged := CompactStrings(tags + ["librarry", IntentTag(id)]);
      Clean(tagged) && (x in tagged <==> x in tags || x == "librarry" || x == IntentTag(id))
  {
    var raw := tags + ["librarry", IntentTag(id)];
    assert Trimmed("librarry") by { assert "librarry"[0] == 'l' && "librarry"[7] == 'y'; }
    assert Trimmed(IntentTag(id)) by { IntentTagIsTrimmed(id); }
    CompactKeeps(raw, x);
    AppendContents(tags, "librarry", IntentTag(id), x);
  }

  lemma AttachContents(tags: seq<string>, i: Intent, x: string)
    requires Clean(tags) && x != ""
    ensures x in Attach(tags, i) <==> x in tags || Contributes(i, x)
    ensures Clean(Attach(tags, i))
  {
    BasicTags(tags, i.id, x);
    if i.request.wantedId != "" {
      var tagged := CompactStrings(tags + ["librarry", IntentTag(i.id)]);
      var tag := WantedTag(i.request.wantedId);
      assert Trimmed(tag) by { WantedTagIsTrimmed(i.request.wantedId); }
      CompactKeeps(tagged + [tag], x);
      AppendContents(tagged, tag, tag, x);
    }
  }

  /** Some returned row is a receipt of this download and contributes the tag. */
  ghost predicate SomeContributes(rows: seq<Intent>, st: Status, x: string) {
    rows != [] &&
    (SomeContributes(rows[..|rows| - 1], st, x)
        || (SameDownload(st, rows[|rows| - 1]) && Contributes(rows[|rows| - 1], x)))
  }

  /** A restored tag list holds exactly what the client listed plus the tags of every receipt the query returned. */
  lemma {:induction false} LinkedContents(st: Status, rows: seq<Intent>, x: string)
    requires Clean(st.tags) && x != ""
    ensures x in Linked(st, rows) <==> x in st.tags || SomeContributes(rows, st, x)
    ensures Clean(Linked(st, rows))
  {
    if rows != [] {
      var init, i := rows[..|rows| - 1], rows[|rows| - 1];
      LinkedContents(st, init, x);
      if SameDownload(st, i) { AttachContents(Linked(st, init), i, x); }
    }
  }

  /** The k-th row is this download's, by trimmed and folded client and trimmed id, and its tags include this one. */
  ghost predicate BringsTag(st: Status, rows: seq<Intent>, k: int, x: string) {
    && 0 <= k < |rows|
    && Lower(Trim(rows[k].request.client)) + ":" + Trim(rows[k].externalId)
         == Lower(Trim(st.client)) + ":" + Trim(st.id)
    && (x == "librarry" || x == "librarry-intent:" + Marks(rows[k].id)
        || (rows[k].request.wantedId != "" && x == "wanted:" + rows[k].request.wantedId))
  }

  lemma {:induction false} SomeBrings(rows: seq<Intent>, st: Status, x: string)
    ensures SomeContributes(rows, st, x) <==> exists k :: BringsTag(st, rows, k, x)
  {
    if rows != [] {
      var n := |rows| - 1;
      SomeBrings(rows[..n], st, x);
      assert forall k :: k < n ==> (BringsTag(st, rows, k, x) <==> BringsTag(st, rows[..n], k, x));
      assert BringsTag(st, rows, n, x) <==> SameDownload(st, rows[n]) && Contributes(rows[n], x);
    }
  }

  /** In tags: a restored list holds what the client listed, and "librarry" and each receipt's own two tags. */
  lemma RestoredTags(st: Status, rows: seq<Intent>, x: string)
    requires Clean(st.tags) && x != ""
    ensures x in Linked(st, rows) <==> x in st.tags || exists k :: BringsTag(st, rows, k, x)
  {
    LinkedContents(st, rows, x);
    SomeBrings(rows, st, x);
  }

  /** The query returns exactly the receipts, accepted or released, of the downloads in the list. */
  lemma LinkQueryExactly(intents: map<IntentId, Intent>, listed: seq<Status>, rows: seq<Intent>, id: IntentId)
    requires LinkRows(intents, listed, rows) && id in intents && intents[id].id == id
    ensures intents[id] in rows <==>
      && (intents[id].phase == Accepted || intents[id].phase == Released) && intents[id].externalId != ""
      && exists n :: 0 <= n < |listed|
           && listed[n].client == intents[id].request.client && listed[n].id == intents[id].externalId
  {
    if intents[id] in rows {
      var k :| 0 <= k < |rows| && rows[k] == intents[id];
      assert rows[k].id in LinkableIds(intents, listed);
    }
    assert id in LinkableIds(intents, listed) <==> Linkable(intents[id], listed);
  }

  // ---- what survives whatever the client lists ----

  lemma CompactKeepsTag(values: seq<string>, x: string)
    requires x in values && x != "" && Trimmed(x)
    ensures x in CompactStrings(values)
  {
    var k :| 0 <= k < |values| && values[k] == x;
    TrimFixesTrimmed(x);
    assert Trim(values[k]) == x;
    CompactContents(values, {}, x);
  }

  /** The tags that tie a download to a receipt and to its book. */
  predicate OwnTag(i: Intent, x: string) {
    x == IntentTag(i.id) || (i.request.wantedId != "" && x == WantedTag(i.request.wantedId))
  }

  lemma AttachKeepsTag(tags: seq<string>, i: Intent, x: string)
    requires x != "" && Trimmed(x) && (x in tags || OwnTag(i, x))
    ensures x in Attach(tags, i)
  {
    var raw := tags + ["librarry", IntentTag(i.id)];
    AppendContents(tags, "librarry", IntentTag(i.id), x);
    var tagged := CompactStrings(raw);
    if x in raw { CompactKeepsTag(raw, x); }
    if i.request.wantedId != "" {
      AppendContents(tagged, WantedTag(i.request.wantedId), WantedTag(i.request.wantedId), x);
      CompactKeepsTag(tagged + [WantedTag(i.request.wantedId)], x);
    }
  }

  lemma LinkedStepKeeps(st: Status, init: seq<Intent>, i: Intent, x: string)
    requires x != "" && Trimmed(x)
    ensures x in Linked(st, init) || (SameDownload(st, i) && OwnTag(i, x)) ==> x in Linked(st, init + [i])
  {
    assert (init + [i])[..|init|] == init;
    if SameDownload(st, i) && (x in Linked(st, init) || OwnTag(i, x)) { AttachKeepsTag(Linked(st, init), i, x); }
  }

  /** Every receipt the query returned for a listed download leaves its tags on it, whatever tags the client listed. */
  lemma {:induction false} LinkedKeepsTag(st: Status, rows: seq<Intent>, k: nat, x: string)
    requires k < |rows| && x != "" && Trimmed(x)
    ensures SameDownload(st, rows[k]) && OwnTag(rows[k], x) ==> x in Linked(st, rows)
  {
    var n := |rows| - 1;
    Unsnoc(rows);
    LinkedStepKeeps(st, rows[..n], rows[n], x);
    if k < n {
      LinkedKeepsTag(st, rows[..n], k, x);
    }
  }

  // ---- writing a whole list ----

  function UpsertAll(rows: map<DownloadKey, Download>, listed: seq<Status>, now: Time): map<DownloadKey, Download> {
    if listed == [] then rows
    else Upsert(UpsertAll(rows, listed[..|listed| - 1], now), listed[|listed| - 1], now)
  }

  /** What a list says about one row, in order. */
  function EntriesFor(listed: seq<Status>, k: DownloadKey, now: Time): seq<(RowOp, Time)> {
    if listed == [] then []
    else
      var st := listed[|listed| - 1];
      EntriesFor(listed[..|listed| - 1], k, now) + (if RowKey(st) == Some(k) then [(Observe(st), now)] else [])
  }

  lemma UpsertOne(rows: map<DownloadKey, Download>, st: Status, now: Time, k: DownloadKey)
    ensures k in Upsert(rows, st, now) <==> k in rows || RowKey(st) == Some(k)
    ensures k in rows ==> Upsert(rows, st, now)[k] == if RowKey(st) == Some(k) then Merge(rows[k], st, now) else rows[k]
  {}

  lemma ReplaySnoc(d: Download, ops: seq<(RowOp, Time)>, op: RowOp, now: Time)
    ensures Replay(d, ops + [(op, now)]) == ApplyOp(Replay(d, ops), op, now)
  {
    assert (ops + [(op, now)])[..|ops|] == ops;
  }

  /** Writing a list touches exactly the rows it names, and each of them as that many observations in list order. */
  lemma {:induction false} UpsertAllIsReplay(rows: map<DownloadKey, Download>, listed: seq<Status>, now: Time,
          k: DownloadKey)
    ensures k in UpsertAll(rows, listed, now) <==> k in rows || EntriesFor(listed, k, now) != []
    ensures k in rows ==> UpsertAll(rows, listed, now)[k] == Replay(rows[k], EntriesFor(listed, k, now))
  {
    if listed != [] {
      var init, st := listed[..|listed| - 1], listed[|listed| - 1];
      UpsertAllIsReplay(rows, init, now, k);
      UpsertOne(UpsertAll(rows, init, now), st, now, k);
      if RowKey(st) != Some(k) {
        assert EntriesFor(listed, k, now) == EntriesFor(init, k, now);
      } else if k in rows {
        ReplaySnoc(rows[k], EntriesFor(init, k, now), Observe(st), now);
      }
    }
  }
}
