/**
  What a claim comes to in the tables' own columns: when it is granted, which rows it
  retires and on what evidence, what it inserts, and what each refusal means.
 */
module ClaimLaws {
  import opened Text
  import opened Records
  import opened Statements
  import opened ClaimRules
  import Bookkeeping

  /**
    A row is retired exactly when it is an accepted receipt that owes no bookkeeping and its
    download was removed or failed; or is imported while another release of the scope is asked for.
   */
  lemma RetiredOnEvidence(t: Tables, c: Candidate, x: IntentId)
    ensures x in RetiredBy(t, c) <==>
      && x in t.intents && t.intents[x].phase == Accepted
      && (!t.intents[x].bookkeepingRequired || t.intents[x].bookkeepingAt.Some?)
      && (t.intents[x].request.scopeKey == c.scopeKey || t.intents[x].request.requestKey == c.requestKey)
      && var key := DownloadKey(t.intents[x].request.client, t.intents[x].externalId);
         && key in t.downloads
         && (t.downloads[key].state == "removed" || t.downloads[key].failedAt.Some?
             || (t.downloads[key].importStatus == "imported" && t.intents[x].request.scopeKey == c.scopeKey
                 && t.intents[x].request.requestKey != c.requestKey))
  {}

  /** No live row of the scope or of the request is left standing. */
  lemma NothingStands(t: Tables, c: Candidate)
    ensures (forall x :: x in t.intents ==> !Blocks(t, c, t.intents[x])) <==>
      (forall x :: x in t.intents ==>
        (t.intents[x].request.scopeKey == c.scopeKey || t.intents[x].request.requestKey == c.requestKey) ==>
        t.intents[x].phase == Released || x in RetiredBy(t, c))
  {
    forall x | x in t.intents
      ensures !Blocks(t, c, t.intents[x]) <==>
        ((t.intents[x].request.scopeKey == c.scopeKey || t.intents[x].request.requestKey == c.requestKey) ==>
         t.intents[x].phase == Released || x in RetiredBy(t, c))
    {
    }
  }

  /**
    The book is listed, not removed or ignored, watched or asked for by hand, and no running
    download carries its tag.
   */
  lemma BookOpenExactly(t: Tables, c: Candidate)
    ensures BookOpen(t, c) <==>
      c.wantedId == "" ||
      (c.wantedId in t.wanted
       && t.wanted[c.wantedId].status != "removed" && t.wanted[c.wantedId].status != "ignored"
       && (c.selection.trigger == "" || c.selection.trigger == "manual" || t.wanted[c.wantedId].monitored)
       && forall k :: k in t.downloads && "wanted:" + c.wantedId in t.downloads[k].tags ==>
            t.downloads[k].state == "removed" || t.downloads[k].failedAt.Some?
            || t.downloads[k].importStatus == "imported")
  {}

  /** A selected release must be one of the book's. */
  lemma ReleaseKnownExactly(t: Tables, c: Candidate)
    ensures ReleaseKnown(t, c) <==>
      c.selection.releaseId == "" ||
      (c.wantedId != "" && c.selection.releaseId in t.releases
       && t.releases[c.selection.releaseId].wantedId == c.wantedId)
  {}

  /** The inserted row: a submission under a two-minute lease, for the book's format and the release's details. */
  lemma InsertedExactly(t: Tables, c: Candidate, id: IntentId, token: Token, began: Time, now: Time, required: bool)
    requires Claimable(t, c)
    ensures var row := NewIntent(Prepared(t, c), id, token, began, now, required);
      && row.id == id && row.phase == Submitting && row.externalId == "" && row.receipt.None?
      && row.leaseToken == Some(token) && row.leaseExpires == Some(now + 120 * SECOND) && row.attempts == 1
      && row.nextCheck.None? && row.createdAt == began && row.bookkeepingRequired == required && row.bookkeepingAt.None?
      && row.request == c.(format := if c.wantedId != "" then t.wanted[c.wantedId].format else c.format,
                           selection := if c.selection.releaseId == "" then c.selection
                                        else c.selection.(details := t.releases[c.selection.releaseId].details))
  {}

  /** The commit keeps every row, moves the retired ones to released, and adds the new one. */
  lemma CommittedExactly(rows: map<IntentId, Intent>, retired: set<IntentId>, inserted: Intent, x: IntentId)
    requires inserted.id !in rows
    ensures x in Commit(rows, retired, inserted) <==> x in rows || x == inserted.id
    ensures x == inserted.id ==> Commit(rows, retired, inserted)[x] == inserted
    ensures x in rows ==>
      Commit(rows, retired, inserted)[x] == if x in retired then rows[x].(phase := Released) else rows[x]
  {}

  /**
    What a granted claim does to another row: nothing, unless the row is of its scope or
    request; a live one of these goes, and only on evidence that its download is over.
   */
  lemma FreedOnEvidence(t: Tables, c: Candidate, inserted: Intent, x: IntentId)
    requires Claimable(t, c) && inserted.id !in t.intents && x in t.intents
    ensures var i, rows := t.intents[x], Commit(t.intents, RetiredBy(t, c), inserted);
      && x in rows
      && (i.phase != Released && (i.request.scopeKey == c.scopeKey || i.request.requestKey == c.requestKey) ==>
          rows[x].phase == Released)
      && (rows[x] == i || rows[x] == i.(phase := Released))
      && (rows[x] != i ==>
          && i.phase == Accepted && (!i.bookkeepingRequired || i.bookkeepingAt.Some?)
          && var key := DownloadKey(i.request.client, i.externalId);
             && key in t.downloads
             && (t.downloads[key].state == "removed" || t.downloads[key].failedAt.Some?
                 || (t.downloads[key].importStatus == "imported"
                     && i.request.scopeKey == c.scopeKey && i.request.requestKey != c.requestKey)))
  {
    NothingStands(t, c);
    RetiredOnEvidence(t, c, x);
    CommittedExactly(t.intents, RetiredBy(t, c), inserted, x);
  }

  /**
    An existing row is handed back exactly when it holds the scope without such evidence, and
    is no receipt yet or one of the same request.
   */
  lemma HandedBackExactly(t: Tables, c: Candidate, r: ClaimResult)
    requires Bookkeeping.Keyed(t) && LiveUnique(t.intents) && Explains(t, c, r)
    ensures r.Existing? <==>
      (exists x :: x in t.intents && x !in RetiredBy(t, c) && t.intents[x].phase != Released
                   && t.intents[x].request.scopeKey == c.scopeKey
                   && (t.intents[x].phase != Accepted || t.intents[x].request.requestKey == c.requestKey))
    ensures r.Existing? ==>
      && r.row.id in t.intents && t.intents[r.row.id] == r.row
      && r.row.phase != Released && r.row.request.scopeKey == c.scopeKey
  {
    if x :| x in t.intents && x !in RetiredBy(t, c) && t.intents[x].phase != Released
            && t.intents[x].request.scopeKey == c.scopeKey {
      assert InScope(c, t.intents[x]) && !Retires(t, c, t.intents[x]);
    }
  }

  /** What each refusal means. */
  lemma RefusalsMean(t: Tables, c: Candidate, r: ClaimResult)
    requires Bookkeeping.Keyed(t) && Explains(t, c, r) && r.Refused?
    ensures r.why.BookMissing? ==> c.wantedId != "" && c.wantedId !in t.wanted
    ensures r.why.BookNotEligible? ==>
      c.wantedId in t.wanted &&
      (t.wanted[c.wantedId].status == "removed" || t.wanted[c.wantedId].status == "ignored"
       || (c.selection.trigger != "" && c.selection.trigger != "manual" && !t.wanted[c.wantedId].monitored))
    ensures r.why.ReleaseNeedsBook? ==> c.selection.releaseId != "" && c.wantedId == ""
    ensures r.why.ReleaseMissing? ==>
      c.selection.releaseId != "" && c.wantedId != "" &&
      (c.selection.releaseId !in t.releases || t.releases[c.selection.releaseId].wantedId != c.wantedId)
    ensures r.why.AcquisitionActive? ==>
      || (exists x :: x in t.intents && x !in RetiredBy(t, c) && t.intents[x].phase != Released
            && (t.intents[x].request.scopeKey == c.scopeKey || t.intents[x].request.requestKey == c.requestKey))
      || (exists k :: k in t.downloads && "wanted:" + c.wantedId in t.downloads[k].tags
            && t.downloads[k].state != "removed" && t.downloads[k].failedAt.None?
            && t.downloads[k].importStatus != "imported")
  {
    if x :| x in t.intents && InScope(c, t.intents[x]) && !Retires(t, c, t.intents[x]) {
      assert x !in RetiredBy(t, c);
    } else if x :| x in t.intents && InRequest(c, t.intents[x]) && !Retires(t, c, t.intents[x]) {
      assert x !in RetiredBy(t, c);
    }
  }

  /** No live row of the scope or the request is in the claim's way. */
  lemma NothingHeld(t: Tables, c: Candidate)
    requires forall x :: x in t.intents && x !in RetiredBy(t, c) && t.intents[x].phase != Released ==>
      t.intents[x].request.scopeKey != c.scopeKey && t.intents[x].request.requestKey != c.requestKey
    ensures !ScopeHeld(t, c) && !RequestHeld(t, c)
  {
    forall x | x in t.intents && (InScope(c, t.intents[x]) || InRequest(c, t.intents[x]))
      ensures Retires(t, c, t.intents[x])
    {
      assert x in RetiredBy(t, c);
    }
  }

  /**
    Which refusal it is when no row is in the way: a missing book, an ineligible one, one with a
    running download, a release without a book, a release that is not the book's, in this order.
   */
  lemma RefusalOrder(t: Tables, c: Candidate, r: ClaimResult)
    requires Explains(t, c, r)
    requires forall x :: x in t.intents && x !in RetiredBy(t, c) && t.intents[x].phase != Released ==>
      t.intents[x].request.scopeKey != c.scopeKey && t.intents[x].request.requestKey != c.requestKey
    ensures r.Refused?
    ensures r.why ==
      if c.wantedId != "" && c.wantedId !in t.wanted then BookMissing
      else if c.wantedId != "" &&
        (t.wanted[c.wantedId].status == "removed" || t.wanted[c.wantedId].status == "ignored"
         || (c.selection.trigger != "" && c.selection.trigger != "manual" && !t.wanted[c.wantedId].monitored))
      then BookNotEligible
      else if c.wantedId != "" &&
        exists k :: k in t.downloads && "wanted:" + c.wantedId in t.downloads[k].tags
          && t.downloads[k].state != "removed" && t.downloads[k].failedAt.None?
          && t.downloads[k].importStatus != "imported"
      then AcquisitionActive
      else if c.wantedId == "" then ReleaseNeedsBook else ReleaseMissing
  {
    NothingHeld(t, c);
  }
}
