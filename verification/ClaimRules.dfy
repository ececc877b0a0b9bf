/**
  What a claim decides from one look at the tables: whom it may retire, what blocks it,
  and what it inserts. The methods are the stretches of ClaimAcquisition between its
  first read and its insert.
 */
module ClaimRules {
  import opened Text
  import opened Records
  import opened Statements
  import Bookkeeping

  datatype ClaimError = AcquisitionActive | BookMissing | BookNotEligible | ReleaseNeedsBook | ReleaseMissing

  datatype ClaimResult = Claimed(row: Intent) | Existing(row: Intent) | Refused(why: ClaimError)

  // ---- what a claim decides, as one look at the tables ----

  /** A live row this claim may retire: a settled receipt whose download no longer holds its scope, or its request. */
  predicate Retires(t: Tables, c: Candidate, r: Intent) {
    && r.phase.Accepted? && r.Settled()
    && ((r.request.scopeKey == c.scopeKey && FreesScope(t, r, c.requestKey))
        || (r.request.requestKey == c.requestKey && FreesRequest(t, r)))
  }

  function RetiredBy(t: Tables, c: Candidate): set<IntentId> {
    set id | id in t.intents && Retires(t, c, t.intents[id])
  }

  /** A live row of the claim's scope or request that it may not retire. */
  predicate Blocks(t: Tables, c: Candidate, r: Intent) {
    r.Live() && (r.request.scopeKey == c.scopeKey || r.request.requestKey == c.requestKey) && !Retires(t, c, r)
  }

  predicate BookOpen(t: Tables, c: Candidate) {
    c.wantedId != "" ==>
      c.wantedId in t.wanted && Eligible(t.wanted[c.wantedId], c.selection.trigger) && !BookActive(t, c.wantedId)
  }

  ghost predicate Claimable(t: Tables, c: Candidate) {
    && (forall id :: id in t.intents ==> !Blocks(t, c, t.intents[id]))
    && BookOpen(t, c) && ReleaseKnown(t, c)
  }

  /** The candidate with its book's format. */
  function WithFormat(t: Tables, c: Candidate): Candidate
    requires c.wantedId != "" ==> c.wantedId in t.wanted
  {
    if c.wantedId != "" then c.(format := t.wanted[c.wantedId].format) else c
  }

  /** The candidate as inserted: the book's format and the selected release's details. */
  function Prepared(t: Tables, c: Candidate): Candidate
    requires BookOpen(t, c) && ReleaseKnown(t, c)
  {
    WithRelease(t, WithFormat(t, c))
  }

  predicate InScope(c: Candidate, r: Intent) { r.Live() && r.request.scopeKey == c.scopeKey }

  predicate InRequest(c: Candidate, r: Intent) { r.Live() && r.request.requestKey == c.requestKey }

  /** Where the scope lookup leads: on, with the row to retire, or out with this answer. */
  datatype Verdict = Proceed(retired: set<IntentId>) | Stop(result: ClaimResult)

  /** The scope's live row, if any, either may be retired or decides the whole claim. */
  method JudgeScope(t: Tables, c: Candidate) returns (v: Verdict)
    requires Bookkeeping.Keyed(t) && LiveUnique(t.intents)
    ensures v.Proceed? <==> forall id :: id in t.intents && InScope(c, t.intents[id]) ==> Retires(t, c, t.intents[id])
    ensures v.Proceed? ==> v.retired == set id | id in t.intents && InScope(c, t.intents[id])
    ensures v.Stop? ==> StopsFor(t, c, v.result)
  {
    if !exists x :: x in t.intents && InScope(c, t.intents[x]) {
      return Proceed({});
    }
    var x :| x in t.intents && InScope(c, t.intents[x]);
    var existing := t.intents[x];
    if !existing.phase.Accepted? {
      return Stop(Existing(existing));
    }
    var terminal := existing.Key() in t.downloads
      && (Over(t.downloads[existing.Key()])
          || (t.downloads[existing.Key()].importStatus == "imported" && existing.request.requestKey != c.requestKey));
    if terminal && existing.Settled() {
      return Proceed({x});
    } else if existing.request.requestKey != c.requestKey {
      return Stop(Refused(AcquisitionActive));
    }
    return Stop(Existing(existing));
  }

  /**
    The scope is held by a row the claim may not retire; only a repeat of its own request,
    or an unsettled send, is handed back.
   */
  ghost predicate StopsFor(t: Tables, c: Candidate, r: ClaimResult) {
    exists id :: id in t.intents && InScope(c, t.intents[id]) && !Retires(t, c, t.intents[id])
      && r == if t.intents[id].phase.Accepted? && t.intents[id].request.requestKey != c.requestKey
              then Refused(AcquisitionActive) else Existing(t.intents[id])
  }

  ghost predicate ScopeHeld(t: Tables, c: Candidate) {
    exists id :: id in t.intents && InScope(c, t.intents[id]) && !Retires(t, c, t.intents[id])
  }

  ghost predicate RequestHeld(t: Tables, c: Candidate) {
    exists id :: id in t.intents && InRequest(c, t.intents[id]) && !Retires(t, c, t.intents[id])
  }

  /**
    Why a claim that did not commit did not, in this order: the scope's row, another live
    row of the request, the first objection.
   */
  ghost predicate Explains(t: Tables, c: Candidate, r: ClaimResult) {
    if ScopeHeld(t, c) then StopsFor(t, c, r)
    else if RequestHeld(t, c) then r == Refused(AcquisitionActive)
    else r.Refused? && Objection(t, c) == Some(r.why)
  }

  /** The first failing check of the book and the release, in the order the transaction makes them. */
  function Objection(t: Tables, c: Candidate): Option<ClaimError> {
    if c.wantedId != "" && c.wantedId !in t.wanted then Some(BookMissing)
    else if c.wantedId != "" && !Eligible(t.wanted[c.wantedId], c.selection.trigger) then Some(BookNotEligible)
    else if c.wantedId != "" && BookActive(t, c.wantedId) then Some(AcquisitionActive)
    else if c.selection.releaseId != "" && c.wantedId == "" then Some(ReleaseNeedsBook)
    else if !ReleaseKnown(t, c) then Some(ReleaseMissing)
    else None
  }

  /** Either the first objection, or the candidate with its book's format and its release's details. */
  method CheckBook(t: Tables, candidate: Candidate) returns (why: Option<ClaimError>, c: Candidate)
    ensures why == Objection(t, candidate)
    ensures why.None? ==> BookOpen(t, candidate) && ReleaseKnown(t, candidate) && c == Prepared(t, candidate)
  {
    c := candidate;
    if c.wantedId != "" {
      if c.wantedId !in t.wanted {
        return Some(BookMissing), c;
      }
      var book := t.wanted[c.wantedId];
      if book.status == "removed" || book.status == "ignored"
         || (c.selection.trigger != "" && c.selection.trigger != "manual" && !book.monitored) {
        return Some(BookNotEligible), c;
      }
      c := c.(format := book.format);
      if exists k :: k in t.downloads && ActiveFor(t.downloads[k], c.wantedId) {
        return Some(AcquisitionActive), c;
      }
    }
    if c.selection.releaseId != "" {
      if c.wantedId == "" {
        return Some(ReleaseNeedsBook), c;
      }
      if c.selection.releaseId !in t.releases || t.releases[c.selection.releaseId].wantedId != c.wantedId {
        return Some(ReleaseMissing), c;
      }
      c := c.(selection := c.selection.(details := t.releases[c.selection.releaseId].details));
    }
    return None, c;
  }

  /** Retired rows: the scope's, if it may go, and every receipt of the request whose download is over. */
  lemma RetiredExactly(t: Tables, c: Candidate, byScope: set<IntentId>, byRequest: set<IntentId>)
    requires forall id :: id in t.intents && InScope(c, t.intents[id]) ==> Retires(t, c, t.intents[id])
    requires byScope == set id | id in t.intents && InScope(c, t.intents[id])
    requires byRequest == set id | id in t.intents && t.intents[id].request.requestKey == c.requestKey
        && FreesRequest(t, t.intents[id])
    ensures byScope + byRequest == RetiredBy(t, c)
  {}

  /** Every row the claim retires, and whether its request still has another live row. */
  method RetireRows(t: Tables, c: Candidate, byScope: set<IntentId>) returns (retired: set<IntentId>, other: bool)
    requires forall id :: id in t.intents && InScope(c, t.intents[id]) ==> Retires(t, c, t.intents[id])
    requires byScope == set id | id in t.intents && InScope(c, t.intents[id])
    ensures retired == RetiredBy(t, c)
    ensures other <==> RequestHeld(t, c)
    ensures !other ==> forall id :: id in t.intents ==> !Blocks(t, c, t.intents[id])
  {
    var byRequest := set x | x in t.intents && t.intents[x].request.requestKey == c.requestKey
      && t.intents[x].phase.Accepted? && t.intents[x].Settled() && t.intents[x].Key() in t.downloads
          && Over(t.downloads[t.intents[x].Key()]);
    retired := byScope + byRequest;
    RetiredExactly(t, c, byScope, byRequest);
    other := exists x :: x in t.intents && x !in retired && InRequest(c, t.intents[x]);
  }

  /** Committing a claim nothing blocks keeps both unique indexes. */
  lemma CommitUnique(t: Tables, c: Candidate, row: Intent)
    requires Bookkeeping.Keyed(t) && LiveUnique(t.intents) && row.id !in t.intents
    requires row.request.scopeKey == c.scopeKey && row.request.requestKey == c.requestKey
    requires forall id :: id in t.intents ==> !Blocks(t, c, t.intents[id])
    ensures LiveUnique(Commit(t.intents, RetiredBy(t, c), row))
  {
    var rows := Commit(t.intents, RetiredBy(t, c), row);
    forall id | id in t.intents && rows[id].Live()
      ensures rows[id] == t.intents[id] && rows[id].request.scopeKey != c.scopeKey
      ensures rows[id].request.requestKey != c.requestKey
    {
      assert !Blocks(t, c, t.intents[id]);
    }
  }

}
