/**
  The rows the acquisition store works on: acquisition_intents, downloads,
  wanted_items, releases and history_events. Rows live in maps keyed by their
  primary key; a download's key is its unique (client, external_id) pair.
 */
module Records {
  import opened Text

  /** A uuid primary key; the code compares ids by value (bookkeeping.go), so a number stands for one. */
  type IntentId = nat
  type Token = nat
  /** Microseconds. */
  type Time = int

  const SECOND: int := 1000000
  const LEASE: int := 120 * SECOND

  datatype Phase = Submitting | Uncertain | Accepted | Released
  {
    /** state in ('submitting','uncertain') */
    predicate Open() { Submitting? || Uncertain? }
    predicate Live() { !Released? }
  }

  /** What is copied from the selected releases row when a claim commits. */
  datatype ReleaseDetails = ReleaseDetails(title: string, score: real, sourceId: string, rejectedReason: string)

  datatype Selection = Selection(releaseId: string, trigger: string, forced: bool, paused: bool,
      details: ReleaseDetails)

  /** A wanted item's id, or "" for none; ids come from a pattern match and carry no outer spaces. */
  type BookId = s: string | Trimmed(s) witness ""

  datatype Candidate = Candidate(
    scopeKey: string, requestKey: string, wantedId: BookId, format: string, client: string,
    endpointHash: string, infoHash: string, title: string, category: string, selection: Selection)

  /** `attempts` is 1 on insert and only ever incremented. */
  type Attempts = n: int | 1 <= n witness 1

  datatype Intent = Intent(
    id: IntentId, request: Candidate, phase: Phase, externalId: string, receipt: Option<Status>,
    leaseToken: Option<Token>, leaseExpires: Option<Time>, attempts: Attempts, nextCheck: Option<Time>,
    createdAt: Time, bookkeepingRequired: bool, bookkeepingAt: Option<Time>)
  {
    predicate Live() { phase.Live() }
    /** An accepted receipt may be retired only once its bookkeeping is done or was never owed. */
    predicate Settled() { !bookkeepingRequired || bookkeepingAt.Some? }
    function Key(): DownloadKey { DownloadKey(request.client, externalId) }
  }

  datatype DownloadKey = DownloadKey(client: string, externalId: string)

  /** Columns every client observation simply overwrites. */
  datatype LiveFields = LiveFields(
    name: string, category: string, savePath: string, sizeBytes: int, downloadedBytes: int, uploadedBytes: int,
    downloadRate: int, uploadRate: int, etaSeconds: int, ratio: real, seeders: int, peers: int)

  /** DownloadStatus: one entry of a client list, and the receipt of an accepted add. */
  datatype Status = Status(
    client: string, id: string, live: LiveFields, state: string, progress: real, tags: seq<string>,
    addedAt: Option<Time>, completedAt: Option<Time>, lastActivityAt: Option<Time>, lastSeenAt: Option<Time>,
    importStatus: string, failureReason: string, failedAt: Option<Time>, retryCount: int, replacementId: string)

  /** A downloads row; `tags` is the comma-joined column, already split. */
  datatype Download = Download(
    live: LiveFields, state: string, progress: real, tags: seq<string>,
    addedAt: Option<Time>, completedAt: Option<Time>, lastActivityAt: Option<Time>, lastSeenAt: Time,
    importStatus: string, importError: string, importedFileId: Option<string>, importedAt: Option<Time>,
    failureReason: string, failedAt: Option<Time>, retryCount: int, replacementId: string,
    releaseId: Option<string>, link: Option<IntentId>)

  datatype Wanted = Wanted(status: string, format: string, monitored: bool)

  datatype Release = Release(wantedId: string, details: ReleaseDetails)

  datatype Event =
    | Grabbed(acquisitionId: IntentId, entityType: string, entityId: string, message: string,
              download: DownloadKey, selection: Selection)
    | OtherEvent(kind: string)

  datatype Tables = Tables(
    intents: map<IntentId, Intent>,
    downloads: map<DownloadKey, Download>,
    wanted: map<string, Wanted>,
    releases: map<string, Release>,
    history: seq<Event>)

  function WantedTag(id: string): string { "wanted:" + id }

  /** "librarry-intent:" followed by the id; the id is rendered as that many marks. */
  function IntentTag(id: IntentId): string { "librarry-intent:" + Marks(id) }

  function Marks(n: nat): (s: string)
    ensures |s| == n && forall c :: c in s ==> c == '1'
  {
    if n == 0 then "" else Marks(n - 1) + "1"
  }

  lemma IntentTagIsTrimmed(id: IntentId)
    ensures IntentTag(id) != "" && Trim(IntentTag(id)) == IntentTag(id)
  {
    var tag, prefix := IntentTag(id), "librarry-intent:";
    assert tag[0] == prefix[0] == 'l' && prefix[|prefix| - 1] == ':';
    if id > 0 {
      assert tag[|tag| - 1] == Marks(id)[id - 1];
      assert Marks(id)[id - 1] in Marks(id);
    } else {
      assert tag[|tag| - 1] == prefix[|prefix| - 1];
    }
    TrimFixesTrimmed(tag);
  }

  lemma WantedTagIsTrimmed(wanted: BookId)
    ensures WantedTag(wanted) != "" && Trim(WantedTag(wanted)) == WantedTag(wanted)
  {
    var tag, prefix := WantedTag(wanted), "wanted:";
    assert tag[0] == prefix[0] == 'w' && prefix[|prefix| - 1] == ':';
    if wanted != "" {
      assert tag[|tag| - 1] == wanted[|wanted| - 1];
    } else {
      assert tag[|tag| - 1] == prefix[|prefix| - 1];
    }
    TrimFixesTrimmed(tag);
  }

  lemma IntentTagInjective(a: IntentId, b: IntentId)
    requires IntentTag(a) == IntentTag(b)
    ensures a == b
  {
    assert |IntentTag(a)| == |"librarry-intent:"| + a;
    assert |IntentTag(b)| == |"librarry-intent:"| + b;
  }
}
