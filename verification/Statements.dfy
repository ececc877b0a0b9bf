/**
  The statements of intents_store.go, one row or one decision at a time. The class
  in IntentStore.dfy runs them as a program; Protocol.dfy interleaves them.
 */
module Statements {
  import opened Text
  import opened Records

  // ---- pacing ----

  /** least(300, 5*power(2, least(attempts-1, 6))) seconds. */
  function Backoff(attempts: Attempts): Time {
    var k := if attempts - 1 < 6 then attempts - 1 else 6;
    var s := 5 * Pow2(k);
    (if s < 300 then s else 300) * SECOND
  }

  lemma BackoffRange(attempts: Attempts)
    ensures 5 * SECOND <= Backoff(attempts) <= 300 * SECOND
    ensures Backoff(attempts) <= Backoff(attempts + 1)
    ensures attempts >= 7 ==> Backoff(attempts) == 300 * SECOND
    ensures attempts <= 6 ==>
      Backoff(attempts) == SECOND * (if attempts == 1 then 5 else if attempts == 2 then 10 else if attempts == 3 then 20
                                     else if attempts == 4 then 40 else if attempts == 5 then 80 else 160)
  {
    assert Pow2(1) == 2 && Pow2(2) == 4 && Pow2(3) == 8 && Pow2(4) == 16 && Pow2(5) == 32 && Pow2(6) == 64;
  }

  // ---- one intent row ----

  predicate CanRecover(r: Intent, now: Time) {
    && r.phase.Open()
    && (r.leaseExpires.Some? ==> r.leaseExpires.value < now)
    && (r.nextCheck.Some? ==> r.nextCheck.value <= now)
  }

  function Recovered(r: Intent, token: Token, now: Time): Intent {
    r.(phase := Uncertain, leaseToken := Some(token), leaseExpires := Some(now + LEASE), attempts := r.attempts + 1)
  }

  predicate CanAccept(r: Intent, token: Token, now: Time) {
    r.phase.Open() && r.leaseToken == Some(token) && r.leaseExpires.Some? && r.leaseExpires.value > now
  }

  function AcceptedRow(r: Intent, status: Status): Intent {
    r.(phase := Accepted, externalId := status.id, receipt := Some(status), leaseToken := None, leaseExpires := None,
        nextCheck := None)
  }

  predicate CanMarkUncertain(r: Intent, token: Token) {
    r.phase.Open() && r.leaseToken == Some(token)
  }

  function UncertainRow(r: Intent, now: Time): Intent {
    r.(phase := Uncertain, leaseToken := None, leaseExpires := None, nextCheck := Some(now + Backoff(r.attempts)))
  }

  predicate CanOperatorRelease(r: Intent, now: Time) {
    r.phase.Open() && (r.leaseExpires.Some? ==> r.leaseExpires.value < now)
  }

  function OperatorReleased(r: Intent): Intent {
    r.(phase := Released, leaseToken := None, leaseExpires := None)
  }

  // ---- decisions of ClaimAcquisition ----

  predicate Over(d: Download) {
    d.state == "removed" || d.failedAt.Some?
  }

  /**
    The scope's accepted receipt no longer holds the book: its download was removed or
    failed, or is imported and another release is asked for.
   */
  predicate FreesScope(t: Tables, existing: Intent, requestKey: string) {
    && existing.Key() in t.downloads
    && (var d := t.downloads[existing.Key()];
        Over(d) || (d.importStatus == "imported" && existing.request.requestKey != requestKey))
  }

  /** An accepted receipt of the same request, under any scope, whose download was removed or failed. */
  predicate FreesRequest(t: Tables, r: Intent) {
    r.phase.Accepted? && r.Settled() && r.Key() in t.downloads && Over(t.downloads[r.Key()])
  }

  /** A download tagged for the book that is neither removed, failed nor imported. */
  predicate ActiveFor(d: Download, wantedId: string) {
    WantedTag(wantedId) in d.tags && d.state != "removed" && d.failedAt.None? && d.importStatus != "imported"
  }

  predicate BookActive(t: Tables, wantedId: string) {
    exists k :: k in t.downloads && ActiveFor(t.downloads[k], wantedId)
  }

  predicate Eligible(w: Wanted, trigger: string) {
    w.status != "removed" && w.status != "ignored" && (trigger == "" || trigger == "manual" || w.monitored)
  }

  predicate ReleaseKnown(t: Tables, c: Candidate) {
    c.selection.releaseId != "" ==>
      c.wantedId != "" && c.selection.releaseId in t.releases
          && t.releases[c.selection.releaseId].wantedId == c.wantedId
  }

  function WithRelease(t: Tables, c: Candidate): Candidate
    requires ReleaseKnown(t, c)
  {
    if c.selection.releaseId == "" then c
    else c.(selection := c.selection.(details := t.releases[c.selection.releaseId].details))
  }

  function NewIntent(c: Candidate, id: IntentId, token: Token, began: Time, now: Time, required: bool): Intent {
    Intent(id, c, Submitting, "", None, Some(token), Some(now + LEASE), 1, None, began, required, None)
  }

  function Commit(rows: map<IntentId, Intent>, retired: set<IntentId>, inserted: Intent): map<IntentId, Intent> {
    (map id | id in rows :: if id in retired then rows[id].(phase := Released) else rows[id])[inserted.id := inserted]
  }

  /** What the two partial unique indexes of acquisition_intents demand. */
  ghost predicate LiveUnique(rows: map<IntentId, Intent>) {
    forall a, b {:trigger rows[a], rows[b]} :: a in rows && b in rows && a != b && rows[a].Live() && rows[b].Live() ==>
      rows[a].request.scopeKey != rows[b].request.scopeKey && rows[a].request.requestKey != rows[b].request.requestKey
  }

  // ---- the whole life of a row ----

  /** The only ways any statement may change an intent row. */
  ghost predicate Evolves(a: Intent, b: Intent) {
    || b == a
    // recovery claim or uncertain mark
    || (a.phase.Open() && b.phase.Uncertain? && SameRecord(a, b) && b.externalId == a.externalId
        && b.receipt == a.receipt && b.bookkeepingAt == a.bookkeepingAt)
    // acceptance
    || (a.phase.Open() && b.phase.Accepted? && SameRecord(a, b) && b.receipt.Some? && b.leaseToken.None?
        && b.bookkeepingAt == a.bookkeepingAt)
    // operator release, never of a receipt
    || (a.phase.Open() && b.phase.Released? && SameRecord(a, b) && b.externalId == a.externalId
        && b.receipt == a.receipt && b.leaseToken.None? && b.bookkeepingAt == a.bookkeepingAt)
    // bookkeeping, once
    || (a.phase.Accepted? && a.bookkeepingRequired && a.bookkeepingAt.None? && b.bookkeepingAt.Some?
        && b == a.(bookkeepingAt := b.bookkeepingAt))
    // retirement by a later claim, only once settled
    || (a.phase.Accepted? && a.Settled() && b == a.(phase := Released))
  }

  predicate SameRecord(a: Intent, b: Intent) {
    a.id == b.id && a.request == b.request && a.createdAt == b.createdAt
        && a.bookkeepingRequired == b.bookkeepingRequired
  }
}
