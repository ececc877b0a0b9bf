/**
  SQLDownloadStore as a program over its tables: every method of intents_store.go,
  bookkeeping.go and store.go the protocol runs, each proved against the statements
  the state machine interleaves. Generated ids, tokens and clock readings are parameters.
 */
module IntentStore {
  import opened Text
  import opened Records
  import opened Downloads
  import opened Statements
  import opened ClaimLaws
  import opened ClaimRules
  import opened LinkIndex
  import opened Marking
  import Bookkeeping

  class SqlDownloadStore {
    var intents: map<IntentId, Intent>
    var downloads: map<DownloadKey, Download>
    var wanted: map<string, Wanted>
    var releases: map<string, Release>
    var history: seq<Event>

    ghost function Contents(): Tables
      reads this
    {
      Tables(intents, downloads, wanted, releases, history)
    }

    /** Rows under their own ids, and the two partial unique indexes. */
    ghost predicate Valid()
      reads this
    {
      Bookkeeping.Keyed(Contents()) && LiveUnique(intents)
    }

    constructor ()
      ensures Valid() && Contents() == Tables(map[], map[], map[], map[], [])
    {
      intents, downloads, wanted, releases, history := map[], map[], map[], map[], [];
    }

    /**
      A claim commits if and only if nothing live blocks it and its book and release
      are in order; it then retires exactly the rows it may and inserts one; otherwise
      it leaves the tables alone and says why.
     */
    method ClaimAcquisition(candidate: Candidate, id: IntentId, token: Token, began: Time, now: Time, required: bool)
      returns (r: ClaimResult)
      requires Valid() && id !in intents
      modifies this`intents
      ensures Valid()
      ensures r.Claimed? <==> Claimable(old(Contents()), candidate)
      ensures r.Claimed? ==>
        && r.row == NewIntent(Prepared(old(Contents()), candidate), id, token, began, now, required)
        && intents == Commit(old(intents), RetiredBy(old(Contents()), candidate), r.row)
      ensures !r.Claimed? ==> intents == old(intents) && Explains(old(Contents()), candidate, r)
      // a live row of the scope or the request stands in the way, unless its download is over
      ensures forall x :: x in old(intents) ==>
        var i := old(intents)[x];
        && x in intents && (intents[x] == i || intents[x] == i.(phase := Released))
        && (r.Claimed? && i.phase != Released
            && (i.request.scopeKey == candidate.scopeKey || i.request.requestKey == candidate.requestKey) ==>
            intents[x].phase == Released)
        && (intents[x] != i ==>
            && i.phase == Accepted && (!i.bookkeepingRequired || i.bookkeepingAt.Some?)
            && var key := DownloadKey(i.request.client, i.externalId);
               && key in downloads
               && (downloads[key].state == "removed" || downloads[key].failedAt.Some?
                   || (downloads[key].importStatus == "imported"
                       && i.request.scopeKey == candidate.scopeKey && i.request.requestKey != candidate.requestKey)))
    {
      var t := Tables(intents, downloads, wanted, releases, history);
      var v := JudgeScope(t, candidate);
      if v.Stop? {
        return v.result;
      }
      var retired, other := RetireRows(t, candidate, v.retired);
      if other {
        return Refused(AcquisitionActive);
      }
      var why, c := CheckBook(t, candidate);
      if why.Some? {
        return Refused(why.value);
      }
      var row := NewIntent(c, id, token, began, now, required);
      CommitUnique(t, candidate, row);
      forall x | x in intents { FreedOnEvidence(t, candidate, row, x); }
      intents := Commit(intents, retired, row);
      return Claimed(row);
    }

    method ClaimAcquisitionRecovery(id: IntentId, token: Token, now: Time) returns (r: Option<Intent>)
      requires Valid()
      modifies this`intents
      ensures Valid()
      ensures r.Some? <==>
        && id in old(intents) && (old(intents)[id].phase == Submitting || old(intents)[id].phase == Uncertain)
        && (old(intents)[id].leaseExpires.Some? ==> old(intents)[id].leaseExpires.value < now)
        && (old(intents)[id].nextCheck.Some? ==> old(intents)[id].nextCheck.value <= now)
      ensures r.Some? ==> intents == old(intents)[id := r.value]
      ensures r.Some? ==> r.value == old(intents)[id].(
        phase := Uncertain, leaseToken := Some(token), leaseExpires := Some(now + 120 * SECOND),
        attempts := old(intents)[id].attempts + 1)
      ensures r.None? ==> intents == old(intents)
    {
      if id !in intents || !CanRecover(intents[id], now) {
        return None;
      }
      var i := intents[id];
      var row := i.(phase := Uncertain, leaseToken := Some(token), leaseExpires := Some(now + LEASE),
          attempts := i.attempts + 1);
      intents := intents[id := row];
      return Some(row);
    }

    method AcceptAcquisition(i: Intent, status: Status, now: Time) returns (ok: bool)
      requires Valid()
      modifies this`intents
      ensures Valid()
      ensures ok <==>
        && i.id in old(intents) && (old(intents)[i.id].phase == Submitting || old(intents)[i.id].phase == Uncertain)
        && i.leaseToken.Some? && old(intents)[i.id].leaseToken == i.leaseToken
        && old(intents)[i.id].leaseExpires.Some? && old(intents)[i.id].leaseExpires.value > now
      ensures ok ==> intents == old(intents)[i.id := old(intents)[i.id].(
        phase := Accepted, externalId := status.id, receipt := Some(status),
        leaseToken := None, leaseExpires := None, nextCheck := None)]
      ensures !ok ==> intents == old(intents)
    {
      if i.id !in intents || i.leaseToken.None? {
        return false;
      }
      var row := intents[i.id];
      if row.leaseToken != i.leaseToken || row.leaseExpires.None? || row.leaseExpires.value <= now
          || !row.phase.Open() {
        return false;
      }
      row := row.(phase := Accepted, externalId := status.id, receipt := Some(status));
      row := row.(leaseToken := None, leaseExpires := None, nextCheck := None);
      intents := intents[i.id := row];
      return true;
    }

    method UncertainAcquisition(i: Intent, now: Time) returns (ok: bool)
      requires Valid()
      modifies this`intents
      ensures Valid()
      ensures ok <==>
        && i.id in old(intents) && (old(intents)[i.id].phase == Submitting || old(intents)[i.id].phase == Uncertain)
        && i.leaseToken.Some? && old(intents)[i.id].leaseToken == i.leaseToken
      ensures ok ==> intents == old(intents)[i.id := old(intents)[i.id].(
        phase := Uncertain, leaseToken := None, leaseExpires := None,
        nextCheck := Some(now + Backoff(old(intents)[i.id].attempts)))]
      ensures !ok ==> intents == old(intents)
    {
      if i.id !in intents || i.leaseToken.None? {
        return false;
      }
      var row := intents[i.id];
      if row.leaseToken != i.leaseToken || !row.phase.Open() {
        return false;
      }
      row := row.(phase := Uncertain, leaseToken := None, leaseExpires := None,
          nextCheck := Some(now + Backoff(row.attempts)));
      intents := intents[i.id := row];
      return true;
    }

    method ReleaseAcquisition(id: IntentId, now: Time) returns (ok: bool)
      requires Valid()
      modifies this`intents
      ensures Valid()
      ensures ok <==>
        && id in old(intents) && (old(intents)[id].phase == Submitting || old(intents)[id].phase == Uncertain)
        && (old(intents)[id].leaseExpires.Some? ==> old(intents)[id].leaseExpires.value < now)
      ensures ok ==> intents == old(intents)[id := old(intents)[id].(
        phase := Released, leaseToken := None, leaseExpires := None)]
      ensures !ok ==> intents == old(intents)
    {
      if id !in intents || !CanOperatorRelease(intents[id], now) {
        return false;
      }
      intents := intents[id := intents[id].(phase := Released, leaseToken := None, leaseExpires := None)];
      return true;
    }

    /** Step 1: link the download and mark the book, unless a newer receipt owns the download. */
    method LinkDownload(i: Intent)
      requires i.Key() in downloads
      modifies this`downloads, this`wanted
      ensures Contents() == Bookkeeping.Relink(old(Contents()), i)
    {
      var d := downloads[i.Key()];
      if d.link.Some? && d.link.value in intents && Bookkeeping.Later(intents[d.link.value], i) {
        return;
      }
      var r := i.request.selection.releaseId;
      var selected := if r in releases && releases[r].wantedId == i.request.wantedId && i.request.wantedId != ""
          then Some(r) else None;
      downloads := downloads[i.Key() := d.(link := Some(i.id), releaseId := selected)];
      if Bookkeeping.GrabsBook(i, d) {
        var b := i.request.wantedId;
        if b in wanted && !Bookkeeping.Protected(wanted[b].status) {
          wanted := wanted[b := wanted[b].(status := "grabbed")];
        }
      }
    }

    /** Step 2: one history event, and the mark that says it was written. */
    method RecordGrab(i: Intent, now: Time)
      modifies this`history, this`intents
      ensures Contents() == Bookkeeping.Record(old(Contents()), i, now)
    {
      if i.bookkeepingAt.None? {
        history := history + [Bookkeeping.GrabEvent(i)];
        intents := intents[i.id := i.(bookkeepingAt := Some(now))];
      }
    }

    /** The repair transaction; its result is the tables Bookkeeping.Finalize describes. */
    method FinalizeAcquisition(id: IntentId, now: Time) returns (outcome: Bookkeeping.Outcome)
      requires Valid()
      modifies this
      ensures Valid()
      ensures outcome.NoSuchIntent? <==> id !in old(intents)
      ensures outcome.NoReceipt? <==> id in old(intents) && old(intents)[id].phase != Accepted
      ensures outcome.DownloadMissing? <==>
        && id in old(intents) && old(intents)[id].phase == Accepted && old(intents)[id].bookkeepingRequired
        && DownloadKey(old(intents)[id].request.client, old(intents)[id].externalId) !in old(downloads)
      ensures !outcome.Done? || !old(intents)[id].bookkeepingRequired ==> Contents() == old(Contents())
      ensures outcome == Bookkeeping.FinalizeOutcome(old(Contents()), id)
      ensures Contents() == Bookkeeping.Finalize(old(Contents()), id, now)
    {
      if id !in intents {
        return Bookkeeping.NoSuchIntent;
      }
      var i := intents[id];
      if !i.phase.Accepted? {
        return Bookkeeping.NoReceipt;
      }
      if !i.bookkeepingRequired {
        return Bookkeeping.Done;
      }
      if i.Key() !in downloads {
        return Bookkeeping.DownloadMissing;
      }
      LinkDownload(i);
      RecordGrab(i, now);
      return Bookkeeping.Done;
    }

    // ---- download lists ----

    /** Attaches one receipt's tags to the downloads at these positions, in place. */
    static method AttachAt(listed: array<Status>, at: seq<int>, row: Intent)
      requires forall j :: 0 <= j < |at| ==> 0 <= at[j] < listed.Length
      requires forall i, j :: 0 <= i < j < |at| ==> at[i] != at[j]
      modifies listed
      ensures forall n :: 0 <= n < listed.Length ==>
        listed[n] == if n in at then Attached(old(listed[n]), row) else old(listed[n])
    {
      for k := 0 to |at|
        invariant forall n :: 0 <= n < listed.Length ==>
          listed[n] == if n in at[..k] then Attached(old(listed[n]), row) else old(listed[n])
      {
        assert at[k] !in at[..k];
        listed[at[k]] := listed[at[k]].(tags := Attach(listed[at[k]].tags, row));
        assert at[..k + 1] == at[..k] + [at[k]];
      }
      assert at[..|at|] == at;
    }

    /** Rewrites each listed download's tags in place: what the client listed, then every receipt's tags. */
    method RestoreAcquisitionLinks(listed: array<Status>) returns (ghost rows: seq<Intent>)
      requires Valid()
      modifies listed
      ensures LinkRows(intents, old(listed[..]), rows)
      ensures listed[..] == Relinked(old(listed[..]), rows)
    {
      var indices := IndexByKey(listed[..]);
      var found := QueryLinks(intents, listed[..]);
      ghost var was := listed[..];
      for r := 0 to |found|
        invariant forall n :: 0 <= n < listed.Length ==> listed[n] == Relinked(was, found[..r])[n]
      {
        var row := found[r];
        var key := StateKey(row.request.client, row.externalId);
        var at := if key in indices then indices[key] else [];
        AttachAt(listed, at, row);
        forall n | 0 <= n < listed.Length ensures listed[n] == Relinked(was, found[..r + 1])[n] {
          LinkedStep(was[n], found, r);
        }
      }
      assert found[..|found|] == found;
      assert listed[..] == Relinked(was, found);
      rows := found;
    }

    /** Restores the tags of the whole list, then writes its rows in order; later entries of one download win. */
    method UpsertDownloads(listed: array<Status>, now: Time) returns (ghost rows: seq<Intent>)
      requires Valid()
      modifies listed, this`downloads
      ensures Valid()
      ensures LinkRows(intents, old(listed[..]), rows)
      ensures listed[..] == Relinked(old(listed[..]), rows)
      ensures downloads == UpsertAll(old(downloads), Relinked(old(listed[..]), rows), now)
    {
      rows := RestoreAcquisitionLinks(listed);
      for n := 0 to listed.Length
        invariant listed[..] == Relinked(old(listed[..]), rows)
        invariant downloads == UpsertAll(old(downloads), listed[..n], now)
      {
        var st := listed[n];
        assert listed[..n + 1][..n] == listed[..n];
        if Trim(st.id) != "" {
          var key := DownloadKey(if Trim(st.client) == "" then "qBittorrent" else Trim(st.client), st.id);
          downloads := downloads[key := if key in downloads then Merge(downloads[key], st, now) else Insert(st, now)];
        }
      }
      assert listed[..listed.Length] == listed[..];
    }

    // ---- marks ----

    /**
      One mark by external id, within the named client if one is named. It takes effect
      exactly when the id means one row, and then on that row alone.
     */
    method ExecDownloadMutation(id: string, client: string, m: Mark, now: Time) returns (ok: bool)
      modifies this`downloads
      ensures ok <==> Means(old(downloads), id, client)
      ensures ok <==>
        exists k ::
          && k in old(downloads) && k.externalId == id
          && (Trim(client) == "" || Lower(k.client) == Lower(Trim(client)))
          && (forall j :: j in old(downloads) && j.externalId == id && j != k ==>
                Trim(client) != "" && Lower(j.client) != Lower(Trim(client)))
      ensures ok ==> MarkedAlone(old(downloads), downloads, id, client, m, now)
      ensures !ok ==> downloads == old(downloads)
    {
      MeansExactly(downloads, id, client);
      var found := Candidates(downloads, id, Trim(client));
      OneMember(found);
      if |found| != 1 {
        return false;
      }
      var k :| k in found;
      assert found == {k};
      downloads := downloads[k := ApplyMark(downloads[k], m, now)];
      return true;
    }

    method MarkOne(ghost was: map<DownloadKey, Download>, ids: seq<string>, n: nat, client: string, now: Time)
        returns (ok: bool)
      requires n < |ids| && DeletedUpTo(was, downloads, ids, n, client, now)
      modifies this`downloads
      ensures ok <==> Means(was, ids[n], client)
      ensures ok ==> DeletedUpTo(was, downloads, ids, n + 1, client, now)
      ensures !ok ==> downloads == old(downloads)
    {
      SameCandidates(was, downloads, ids[n], Trim(client));
      ok := ExecDownloadMutation(ids[n], client, Deleted, now);
      if ok { DeletedStep(was, old(downloads), downloads, ids, n, client, now); }
    }

    /**
      Marks each id in turn and stops at the first that is missing or ambiguous; what was
      marked before it stays marked.
     */
    method MarkDownloadsDeleted(ids: seq<string>, client: string, now: Time) returns (ok: bool, ghost done: nat)
      modifies this`downloads
      ensures done <= |CompactStrings(ids)| && (ok <==> done == |CompactStrings(ids)|)
      ensures DeletedUpTo(old(downloads), downloads, CompactStrings(ids), done, client, now)
      ensures !ok ==> !Means(old(downloads), CompactStrings(ids)[done], client)
      ensures forall k :: k in old(downloads) ==>
        && k in downloads
        && (downloads[k] == old(downloads)[k]
            || (k.externalId in CompactStrings(ids)[..done]
                && downloads[k] == old(downloads)[k].(state := "removed", lastSeenAt := now)))
    {
      var each := CompactStrings(ids);
      done := 0;
      ghost var was := downloads;
      for n := 0 to |each|
        invariant done == n
        invariant DeletedUpTo(was, downloads, each, n, client, now)
      {
        ok := MarkOne(was, each, n, client, now);
        if !ok {
          return false, done;
        }
        done := n + 1;
      }
      return true, done;
    }
  }
}
