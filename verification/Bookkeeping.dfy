/**
  FinalizeAcquisition: the repair transaction run from a saved receipt, and what
  any number of repairs, in any order, leaves behind.
 */
module Bookkeeping {
  import opened Text
  import opened Records

  datatype Outcome = Done | NoSuchIntent | NoReceipt | DownloadMissing

  /** (a.created_at, a.id) > (i.created_at, i.id) */
  predicate Later(a: Intent, i: Intent) {
    a.createdAt > i.createdAt || (a.createdAt == i.createdAt && a.id > i.id)
  }

  predicate LinkIsNewer(t: Tables, d: Download, i: Intent) {
    d.link.Some? && d.link.value in t.intents && Later(t.intents[d.link.value], i)
  }

  /** The release the receipt was selected from, if that row still belongs to the book. */
  function SelectedRelease(t: Tables, i: Intent): Option<string> {
    var r := i.request.selection.releaseId;
    if r in t.releases && t.releases[r].wantedId == i.request.wantedId && i.request.wantedId != "" then Some(r)
        else None
  }

  /** Book statuses no receipt may overwrite. */
  predicate Protected(status: string) {
    status == "imported" || status == "removed" || status == "ignored"
  }

  function MarkGrabbed(books: map<string, Wanted>, id: string): map<string, Wanted> {
    if id in books && !Protected(books[id].status) then books[id := books[id].(status := "grabbed")] else books
  }

  /** Neither removed, nor imported, nor failed. */
  predicate Fresh(d: Download) {
    d.state != "removed" && d.importStatus != "imported" && d.failedAt.None?
  }

  predicate GrabsBook(i: Intent, d: Download) {
    i.bookkeepingAt.None? && Fresh(d) && i.request.wantedId != ""
  }

  function GrabEvent(i: Intent): Event {
    Grabbed(i.id,
            if i.request.wantedId != "" then "wanted_item" else "acquisition",
            if i.request.wantedId != "" then i.request.wantedId else Marks(i.id),
            if i.request.selection.forced then "Manually selected release accepted by " + i.request.client
            else "Release accepted by " + i.request.client,
            i.Key(), i.request.selection)
  }

  /** Step 1 of the transaction: link the download and mark the book, unless a newer receipt owns the download. */
  function Relink(t: Tables, i: Intent): Tables
    requires i.Key() in t.downloads
  {
    var d := t.downloads[i.Key()];
    if LinkIsNewer(t, d, i) then t
    else t.(downloads := t.downloads[i.Key() := d.(link := Some(i.id), releaseId := SelectedRelease(t, i))],
            wanted := if GrabsBook(i, d) then MarkGrabbed(t.wanted, i.request.wantedId) else t.wanted)
  }

  /** Step 2: one history event, and the mark that says it was written. */
  function Record(t: Tables, i: Intent, now: Time): Tables {
    if i.bookkeepingAt.Some? then t
    else t.(history := t.history + [GrabEvent(i)], intents := t.intents[i.id := i.(bookkeepingAt := Some(now))])
  }

  function FinalizeOutcome(t: Tables, id: IntentId): Outcome {
    if id !in t.intents then NoSuchIntent
    else if !t.intents[id].phase.Accepted? then NoReceipt
    else if !t.intents[id].bookkeepingRequired then Done
    else if t.intents[id].Key() !in t.downloads then DownloadMissing
    else Done
  }

  function Finalize(t: Tables, id: IntentId, now: Time): Tables {
    if FinalizeOutcome(t, id) != Done || !t.intents[id].bookkeepingRequired then t
    else Record(Relink(t, t.intents[id]), t.intents[id], now)
  }

  // ---- one call ----

  /** Tables keep every row under its own id. */
  ghost predicate Keyed(t: Tables) {
    forall id :: id in t.intents ==> t.intents[id].id == id
  }

  lemma RelinkFrame(t: Tables, i: Intent)
    requires i.Key() in t.downloads
    ensures var t' := Relink(t, i);
      && t'.intents == t.intents && t'.history == t.history && t'.releases == t.releases
      && t'.downloads.Keys == t.downloads.Keys && t'.wanted.Keys == t.wanted.Keys
      && (forall k :: k in t.downloads ==>
           t'.downloads[k] == t.downloads[k].(link := t'.downloads[k].link, releaseId := t'.downloads[k].releaseId))
  {}

  /** A repair touches only a row's link and release: live, import and failure fields, retries and tags stay. */
  lemma RepairKeepsObservations(t: Tables, id: IntentId, now: Time, k: DownloadKey)
    requires k in t.downloads
    ensures var d, rows := t.downloads[k], Finalize(t, id, now).downloads;
      k in rows && rows[k] == d.(link := rows[k].link, releaseId := rows[k].releaseId)
  {
    if FinalizeOutcome(t, id) == Done && t.intents[id].bookkeepingRequired { RelinkFrame(t, t.intents[id]); }
  }

  /**
    No repair overwrites an imported, removed or ignored book; any change is to 'grabbed',
    by an unbooked receipt that owns the download.
   */
  lemma BookStatusRules(t: Tables, id: IntentId, now: Time, b: string)
    requires b in t.wanted
    ensures var w, w' := t.wanted[b], Finalize(t, id, now).wanted[b];
      && w'.format == w.format && w'.monitored == w.monitored
      && (w'.status != w.status ==>
           && w'.status == "grabbed" && w.status != "imported" && w.status != "removed" && w.status != "ignored"
           && FinalizeOutcome(t, id) == Done && t.intents[id].request.wantedId == b && t.intents[id].bookkeepingAt.None?
           && !LinkIsNewer(t, t.downloads[t.intents[id].Key()], t.intents[id]))
  {}

  /** A repair that goes through, and its receipt. */
  ghost predicate Repairs(t: Tables, id: IntentId) {
    id in t.intents && FinalizeOutcome(t, id) == Done && t.intents[id].bookkeepingRequired
  }

  /**
    The link after one repair, by creation time and then id: a receipt that is not behind the
    linked one takes the download, with its release if that is still the book's.
   */
  lemma RepairedLink(t: Tables, id: IntentId, now: Time)
    requires Repairs(t, id)
    ensures var i, k := t.intents[id], DownloadKey(t.intents[id].request.client, t.intents[id].externalId);
      && k in t.downloads && k in Finalize(t, id, now).downloads
      && var d, d' := t.downloads[k], Finalize(t, id, now).downloads[k];
         if d.link.Some? && d.link.value in t.intents
            && (t.intents[d.link.value].createdAt > i.createdAt
                || (t.intents[d.link.value].createdAt == i.createdAt && t.intents[d.link.value].id > i.id))
         then Finalize(t, id, now).downloads == t.downloads && Finalize(t, id, now).wanted == t.wanted
         else
           && d'.link == Some(i.id)
           && d'.releaseId ==
                (var r, b := i.request.selection.releaseId, i.request.wantedId;
                 if b != "" && r in t.releases && t.releases[r].wantedId == b then Some(r) else None)
  {}

  /**
    The book after one repair: an unbooked receipt that takes a running download marks its own
    book, unless that is done with.
   */
  lemma RepairedBook(t: Tables, id: IntentId, now: Time, b: string)
    requires Repairs(t, id) && b in t.wanted
    ensures var i, k := t.intents[id], DownloadKey(t.intents[id].request.client, t.intents[id].externalId);
      && k in t.downloads && b in Finalize(t, id, now).wanted
      && var d := t.downloads[k];
         Finalize(t, id, now).wanted[b] ==
           if b == i.request.wantedId && b != "" && i.bookkeepingAt.None?
              && d.state != "removed" && d.failedAt.None? && d.importStatus != "imported"
              && t.wanted[b].status != "imported" && t.wanted[b].status != "removed" && t.wanted[b].status != "ignored"
              && !(d.link.Some? && d.link.value in t.intents
                   && (t.intents[d.link.value].createdAt > i.createdAt
                       || (t.intents[d.link.value].createdAt == i.createdAt && t.intents[d.link.value].id > i.id)))
           then t.wanted[b].(status := "grabbed") else t.wanted[b]
  {}

  /**
    The event of one repair: written once, for the book or else the acquisition, naming receipt,
    download and selection.
   */
  lemma RepairedEvent(t: Tables, id: IntentId, now: Time)
    requires Repairs(t, id)
    ensures var i, t' := t.intents[id], Finalize(t, id, now);
      && (i.bookkeepingAt.Some? ==> t'.history == t.history && t'.intents == t.intents)
      && (i.bookkeepingAt.None? ==>
          && t'.intents == t.intents[i.id := i.(bookkeepingAt := Some(now))]
          && |t'.history| == |t.history| + 1 && t'.history[..|t.history|] == t.history
          && t'.history[|t.history|] == Grabbed(
               i.id, if i.request.wantedId == "" then "acquisition" else "wanted_item",
               if i.request.wantedId == "" then Marks(i.id) else i.request.wantedId,
               (if i.request.selection.forced then "Manually selected release accepted by " else "Release accepted by ")
               + i.request.client,
               DownloadKey(i.request.client, i.externalId), i.request.selection))
  {
    RelinkFrame(t, t.intents[id]);
  }

  // ---- events ----

  function EventsFor(history: seq<Event>, id: IntentId): nat {
    if history == [] then 0
    else (EventsFor(history[..|history| - 1], id) + Names(history[|history| - 1], id))
  }

  function Names(e: Event, id: IntentId): nat {
    if e.Grabbed? && e.acquisitionId == id then 1 else 0
  }

  lemma EventsForAppend(history: seq<Event>, e: Event, id: IntentId)
    ensures EventsFor(history + [e], id) == EventsFor(history, id) + Names(e, id)
  {
    assert (history + [e])[..|history|] == history;
  }

  /** release_grabbed events naming an intent: one when its bookkeeping is done, none otherwise. */
  ghost predicate ExactlyOnce(t: Tables) {
    && (forall id :: id !in t.intents ==> EventsFor(t.history, id) == 0)
    && (forall id :: id in t.intents ==>
         EventsFor(t.history, id) == if t.intents[id].bookkeepingRequired && t.intents[id].bookkeepingAt.Some? then 1
             else 0)
  }

  lemma RecordedAfterOne(t: Tables, call: IntentId, now: Time)
    requires call in t.intents && FinalizeOutcome(t, call) == Done && t.intents[call].bookkeepingRequired && Keyed(t)
    ensures var i, t' := t.intents[call], Finalize(t, call, now);
      && t'.history == (if i.bookkeepingAt.None? then t.history + [GrabEvent(i)] else t.history)
      && t'.intents == (if i.bookkeepingAt.None? then t.intents[call := i.(bookkeepingAt := Some(now))] else t.intents)
  {
    RelinkFrame(t, t.intents[call]);
  }

  lemma EventsAfterOne(t: Tables, call: IntentId, now: Time, id: IntentId)
    requires Keyed(t) && call in t.intents && FinalizeOutcome(t, call) == Done && t.intents[call].bookkeepingRequired
    ensures EventsFor(Finalize(t, call, now).history, id)
      == EventsFor(t.history, id) + if id == call && t.intents[id].bookkeepingAt.None? then 1 else 0
    ensures Finalize(t, call, now).intents.Keys == t.intents.Keys
    ensures id in t.intents ==>
      (Finalize(t, call, now).intents[id].bookkeepingAt.Some? <==> t.intents[id].bookkeepingAt.Some? || id == call)
  {
    RecordedAfterOne(t, call, now);
    EventsForAppend(t.history, GrabEvent(t.intents[call]), id);
  }

  /** A repair, however often repeated, keeps the one-event rule. */
  lemma FinalizeKeepsExactlyOnce(t: Tables, id: IntentId, now: Time)
    requires Keyed(t) && ExactlyOnce(t)
    ensures ExactlyOnce(Finalize(t, id, now))
  {
    var t' := Finalize(t, id, now);
    if FinalizeOutcome(t, id) == Done && t.intents[id].bookkeepingRequired {
      forall x ensures x !in t'.intents ==> EventsFor(t'.history, x) == 0 { EventsAfterOne(t, id, now, x); }
      forall x | x in t'.intents
        ensures EventsFor(t'.history, x) == if t'.intents[x].bookkeepingRequired && t'.intents[x].bookkeepingAt.Some?
            then 1 else 0
      {
        EventsAfterOne(t, id, now, x);
        assert t'.intents[x].bookkeepingRequired == t.intents[x].bookkeepingRequired;
      }
    }
  }

  // ---- many repairs of one download ----

  function FinalizeAll(t: Tables, calls: seq<(IntentId, Time)>): Tables {
    if calls == [] then t
    else Finalize(FinalizeAll(t, calls[..|calls| - 1]), calls[|calls| - 1].0, calls[|calls| - 1].1)
  }

  ghost predicate Called(calls: seq<(IntentId, Time)>, id: IntentId) {
    exists k :: 0 <= k < |calls| && calls[k].0 == id
  }

  /** Every call names an accepted receipt of download k that owes bookkeeping. */
  ghost predicate Sharing(t: Tables, calls: seq<(IntentId, Time)>, k: DownloadKey) {
    && Keyed(t) && k in t.downloads
    && forall n :: 0 <= n < |calls| ==>
         var id := calls[n].0;
         id in t.intents && t.intents[id].phase.Accepted? && t.intents[id].bookkeepingRequired
             && t.intents[id].Key() == k
  }

  /** The fields of a receipt no repair changes. */
  ghost predicate SameReceipt(a: Intent, b: Intent) {
    && a.id == b.id && a.request == b.request && a.phase == b.phase && a.externalId == b.externalId
    && a.createdAt == b.createdAt && a.bookkeepingRequired == b.bookkeepingRequired
  }

  ghost predicate SameReceipts(t: Tables, t': Tables) {
    && t'.intents.Keys == t.intents.Keys && t'.releases == t.releases && t'.downloads.Keys == t.downloads.Keys
    && forall id :: id in t.intents ==> SameReceipt(t.intents[id], t'.intents[id])
  }

  lemma {:induction false} RepairsKeepReceipts(t: Tables, calls: seq<(IntentId, Time)>)
    requires Keyed(t)
    ensures Keyed(FinalizeAll(t, calls)) && SameReceipts(t, FinalizeAll(t, calls))
  {
    if calls != [] {
      var n := |calls| - 1;
      RepairsKeepReceipts(t, calls[..n]);
    }
  }

  /**
    The receipt a download must end up linked to: the greatest of the called ones, unless an
    even later one was linked before.
   */
  ghost predicate RightLink(t: Tables, calls: seq<(IntentId, Time)>, before: Option<IntentId>, link: Option<IntentId>)
  {
    if calls == [] then link == before
    else
      && link.Some? && link.value in t.intents
      && (Called(calls, link.value) || link == before)
      && (forall id :: Called(calls, id) && id in t.intents ==> !Later(t.intents[id], t.intents[link.value]))
      && (before.Some? && before.value in t.intents ==> !Later(t.intents[before.value], t.intents[link.value]))
  }

  lemma RightLinkStep(t: Tables, init: seq<(IntentId, Time)>, last: (IntentId, Time), before: Option<IntentId>,
          link: Option<IntentId>)
    requires RightLink(t, init, before, link) && last.0 in t.intents && Keyed(t)
    ensures RightLink(t, init + [last], before,
      if link.Some? && link.value in t.intents && Later(t.intents[link.value], t.intents[last.0]) then link
          else Some(last.0))
  {
    CalledStep(init, last);
  }

  /** The release shown with a link is the linked receipt's own, once a repair has set the link. */
  ghost predicate RightRelease(t: Tables, calls: seq<(IntentId, Time)>, before: Download, d: Download) {
    if d.link.Some? && Called(calls, d.link.value) && d.link.value in t.intents
    then d.releaseId == SelectedRelease(t, t.intents[d.link.value])
    else d.releaseId == before.releaseId
  }

  lemma RightReleaseStep(t: Tables, init: seq<(IntentId, Time)>, last: (IntentId, Time), before: Download, d: Download,
          d': Download)
    requires RightRelease(t, init, before, d) && last.0 in t.intents
    requires (d' == d && d.link != Some(last.0))
        || (d'.link == Some(last.0) && d'.releaseId == SelectedRelease(t, t.intents[last.0]))
    ensures RightRelease(t, init + [last], before, d')
  {
    CalledStep(init, last);
  }

  lemma LinkAfterLast(t: Tables, t1: Tables, init: seq<(IntentId, Time)>, last: (IntentId, Time), k: DownloadKey)
    requires Keyed(t) && Keyed(t1) && SameReceipts(t, t1) && k in t.downloads && last.0 in t.intents
    requires t.intents[last.0].phase.Accepted? && t.intents[last.0].bookkeepingRequired && t.intents[last.0].Key() == k
    requires RightLink(t, init, t.downloads[k].link, t1.downloads[k].link)
    requires RightRelease(t, init, t.downloads[k], t1.downloads[k])
    ensures var t2 := Finalize(t1, last.0, last.1);
      && k in t2.downloads && RightLink(t, init + [last], t.downloads[k].link, t2.downloads[k].link)
      && RightRelease(t, init + [last], t.downloads[k], t2.downloads[k])
  {
    RightLinkStep(t, init, last, t.downloads[k].link, t1.downloads[k].link);
    RightReleaseStep(t, init, last, t.downloads[k], t1.downloads[k], Finalize(t1, last.0, last.1).downloads[k]);
  }

  lemma {:induction false} LinkAfterAll(t: Tables, calls: seq<(IntentId, Time)>, k: DownloadKey)
    requires Sharing(t, calls, k)
    ensures k in FinalizeAll(t, calls).downloads
    ensures RightLink(t, calls, t.downloads[k].link, FinalizeAll(t, calls).downloads[k].link)
    ensures RightRelease(t, calls, t.downloads[k], FinalizeAll(t, calls).downloads[k])
  {
    if calls != [] {
      var n := |calls| - 1;
      var init := calls[..n];
      LinkAfterAll(t, init, k);
      RepairsKeepReceipts(t, init);
      LinkAfterLast(t, FinalizeAll(t, init), init, calls[n], k);
      assert calls == init + [calls[n]];
    }
  }

  lemma CalledStep(init: seq<(IntentId, Time)>, last: (IntentId, Time))
    ensures forall id :: Called(init + [last], id) <==> Called(init, id) || id == last.0
  {
    forall id ensures Called(init + [last], id) <==> Called(init, id) || id == last.0 {
      if Called(init, id) {
        var k :| 0 <= k < |init| && init[k].0 == id;
        assert (init + [last])[k].0 == id;
      }
      assert (init + [last])[|init|] == last;
    }
  }

  lemma {:induction false} EventsAfterAll(t: Tables, calls: seq<(IntentId, Time)>, k: DownloadKey, id: IntentId)
    requires Sharing(t, calls, k) && id in t.intents
    ensures var t' := FinalizeAll(t, calls);
      && EventsFor(t'.history, id)
          == EventsFor(t.history, id) + (if Called(calls, id) && t.intents[id].bookkeepingAt.None? then 1 else 0)
      && id in t'.intents
      && (t'.intents[id].bookkeepingAt.Some? <==> t.intents[id].bookkeepingAt.Some? || Called(calls, id))
  {
    if calls != [] {
      var n := |calls| - 1;
      var init := calls[..n];
      assert calls == init + [calls[n]];
      EventsAfterAll(t, init, k, id);
      RepairsKeepReceipts(t, init);
      CalledStep(init, calls[n]);
      var t1 := FinalizeAll(t, init);
      assert SameReceipt(t.intents[calls[n].0], t1.intents[calls[n].0]);
      EventsAfterOne(t1, calls[n].0, calls[n].1, id);
    }
  }

  lemma RightLinkUnique(t: Tables, a: seq<(IntentId, Time)>, b: seq<(IntentId, Time)>, before: Option<IntentId>,
          x: Option<IntentId>, y: Option<IntentId>)
    requires Keyed(t) && (forall id :: Called(a, id) <==> Called(b, id))
    requires RightLink(t, a, before, x) && RightLink(t, b, before, y)
    ensures x == y
  {
    if a != [] { assert Called(a, a[0].0); }
    if b != [] { assert Called(b, b[0].0); }
    if a != [] {
      assert !Later(t.intents[x.value], t.intents[y.value]) && !Later(t.intents[y.value], t.intents[x.value]);
    }
  }

  /**
    Confluence: two repair schedules over the same receipts of one download, in any
    order and with any repetitions, agree on the download's link and release, on which
    receipts are booked and on how many events each receipt has; and the link is the
    greatest receipt by (created_at, id).
   */
  lemma RepairsConfluent(t: Tables, a: seq<(IntentId, Time)>, b: seq<(IntentId, Time)>, k: DownloadKey, id: IntentId)
    requires Sharing(t, a, k) && Sharing(t, b, k)
    requires forall x :: Called(a, x) <==> Called(b, x)
    ensures var ta, tb := FinalizeAll(t, a), FinalizeAll(t, b);
      && k in ta.downloads && k in tb.downloads
      && RightLink(t, a, t.downloads[k].link, ta.downloads[k].link)
      && ta.downloads[k].link == tb.downloads[k].link && ta.downloads[k].releaseId == tb.downloads[k].releaseId
      && ta.intents.Keys == tb.intents.Keys
      && (id in ta.intents ==>
           && EventsFor(ta.history, id) == EventsFor(tb.history, id)
           && (ta.intents[id].bookkeepingAt.Some? <==> tb.intents[id].bookkeepingAt.Some?))
  {
    LinkAfterAll(t, a, k);
    LinkAfterAll(t, b, k);
    RepairsKeepReceipts(t, a);
    RepairsKeepReceipts(t, b);
    RightLinkUnique(t, a, b, t.downloads[k].link, FinalizeAll(t, a).downloads[k].link,
        FinalizeAll(t, b).downloads[k].link);
    if id in t.intents {
      EventsAfterAll(t, a, k, id);
      EventsAfterAll(t, b, k, id);
    }
  }

  /**
    After any schedule the link is a receipt no called one and no earlier link is behind: none
    was created later, and none created at the same time has a greater id.
   */
  lemma LinkIsGreatest(t: Tables, calls: seq<(IntentId, Time)>, k: DownloadKey, n: nat)
    requires Sharing(t, calls, k) && n < |calls|
    ensures k in FinalizeAll(t, calls).downloads
    ensures var before, link := t.downloads[k].link, FinalizeAll(t, calls).downloads[k].link;
      && link.Some? && link.value in t.intents && calls[n].0 in t.intents
      && (link == before || exists m :: 0 <= m < |calls| && calls[m].0 == link.value)
      && var i, last := t.intents[calls[n].0], t.intents[link.value];
         && (i.createdAt < last.createdAt || (i.createdAt == last.createdAt && i.id <= last.id))
         && (before.Some? && before.value in t.intents ==>
             var prev := t.intents[before.value];
             prev.createdAt < last.createdAt || (prev.createdAt == last.createdAt && prev.id <= last.id))
  {
    LinkAfterAll(t, calls, k);
    assert Called(calls, calls[n].0);
  }

  // ---- the book ----

  lemma {:induction false} ObservationsAfterAll(t: Tables, calls: seq<(IntentId, Time)>, k: DownloadKey)
    requires Keyed(t) && k in t.downloads
    ensures k in FinalizeAll(t, calls).downloads
    ensures var d, d' := t.downloads[k], FinalizeAll(t, calls).downloads[k];
      d'.state == d.state && d'.importStatus == d.importStatus && d'.failedAt == d.failedAt && d'.tags == d.tags
  {
    if calls != [] {
      var n := |calls| - 1;
      ObservationsAfterAll(t, calls[..n], k);
      RepairsKeepReceipts(t, calls[..n]);
      RepairKeepsObservations(FinalizeAll(t, calls[..n]), calls[n].0, calls[n].1, k);
    }
  }

  /** Some receipt named in these calls is later than this one. */
  ghost predicate Outranked(t: Tables, calls: seq<(IntentId, Time)>, i: Intent) {
    exists m :: 0 <= m < |calls| && calls[m].0 in t.intents && Later(t.intents[calls[m].0], i)
  }

  /** After repairs a receipt is outranked exactly by the download's original link or by a receipt repaired so far. */
  lemma OutrankedAfterAll(t: Tables, calls: seq<(IntentId, Time)>, k: DownloadKey, id: IntentId)
    requires Sharing(t, calls, k) && id in t.intents
    ensures id in FinalizeAll(t, calls).intents && k in FinalizeAll(t, calls).downloads
    ensures var t1 := FinalizeAll(t, calls);
      LinkIsNewer(t1, t1.downloads[k], t1.intents[id])
      <==> LinkIsNewer(t, t.downloads[k], t.intents[id]) || Outranked(t, calls, t.intents[id])
  {
    RepairsKeepReceipts(t, calls);
    LinkAfterAll(t, calls, k);
    var t1 := FinalizeAll(t, calls);
    var link := t1.downloads[k].link;
    assert SameReceipt(t.intents[id], t1.intents[id]);
    if link.Some? && link.value in t.intents {
      assert SameReceipt(t.intents[link.value], t1.intents[link.value]);
    }
    if Outranked(t, calls, t.intents[id]) {
      var m :| 0 <= m < |calls| && calls[m].0 in t.intents && Later(t.intents[calls[m].0], t.intents[id]);
      assert Called(calls, calls[m].0);
    }
  }

  /**
    A call that marks book b: its receipt is for b and not booked, and neither the original
    link nor an earlier call outranks it.
   */
  ghost predicate MarksAt(t: Tables, calls: seq<(IntentId, Time)>, d: Download, b: string, n: int) {
    && 0 <= n < |calls| && calls[n].0 in t.intents
    && GrabsBook(t.intents[calls[n].0], d) && t.intents[calls[n].0].request.wantedId == b
    && !LinkIsNewer(t, d, t.intents[calls[n].0]) && !Outranked(t, calls[..n], t.intents[calls[n].0])
  }

  ghost predicate SomeMarks(t: Tables, calls: seq<(IntentId, Time)>, d: Download, b: string) {
    exists n :: MarksAt(t, calls, d, b, n)
  }

  lemma SomeMarksStep(t: Tables, init: seq<(IntentId, Time)>, last: (IntentId, Time), d: Download, b: string)
    ensures SomeMarks(t, init + [last], d, b) <==> SomeMarks(t, init, d, b) || MarksAt(t, init + [last], d, b, |init|)
  {
    var all := init + [last];
    forall n | 0 <= n < |init| ensures MarksAt(t, all, d, b, n) <==> MarksAt(t, init, d, b, n) {
      assert all[..n] == init[..n];
    }
    if SomeMarks(t, init, d, b) {
      var n :| MarksAt(t, init, d, b, n);
      assert MarksAt(t, all, d, b, n);
    }
    if SomeMarks(t, all, d, b) {
      var n :| MarksAt(t, all, d, b, n);
      assert n < |init| ==> MarksAt(t, init, d, b, n);
    }
  }

  lemma BookAfterOne(t: Tables, id: IntentId, now: Time, k: DownloadKey)
    requires Keyed(t) && k in t.downloads && id in t.intents
    requires t.intents[id].phase.Accepted? && t.intents[id].bookkeepingRequired && t.intents[id].Key() == k
    ensures var i, d := t.intents[id], t.downloads[k];
      Finalize(t, id, now).wanted ==
        if !LinkIsNewer(t, d, i) && GrabsBook(i, d) then MarkGrabbed(t.wanted, i.request.wantedId) else t.wanted
  {}

  /** If no call so far marked the book, the next one marks it exactly when it may. */
  lemma BookStep(t: Tables, init: seq<(IntentId, Time)>, last: (IntentId, Time), k: DownloadKey, b: string)
    requires Sharing(t, init + [last], k) && Sharing(t, init, k) && !SomeMarks(t, init, t.downloads[k], b)
    requires last.0 in FinalizeAll(t, init).intents && k in FinalizeAll(t, init).downloads
    ensures var t1 := FinalizeAll(t, init);
      var i, d := t1.intents[last.0], t1.downloads[k];
      MarksAt(t, init + [last], t.downloads[k], b, |init|) <==>
          !LinkIsNewer(t1, d, i) && GrabsBook(i, d) && i.request.wantedId == b
  {
    var all := init + [last];
    assert all[|init|] == last && all[..|init|] == init;
    RepairsKeepReceipts(t, init);
    ObservationsAfterAll(t, init, k);
    OutrankedAfterAll(t, init, k, last.0);
    EventsAfterAll(t, init, k, last.0);
    if Called(init, last.0) && MarksAt(t, all, t.downloads[k], b, |init|) {
      var m :| 0 <= m < |init| && init[m].0 == last.0;
      FirstCallMarks(t, init, last, t.downloads[k], b, m);
    }
  }

  lemma FirstCallMarks(t: Tables, init: seq<(IntentId, Time)>, last: (IntentId, Time), d: Download, b: string, m: nat)
    requires m < |init| && init[m].0 == last.0 && MarksAt(t, init + [last], d, b, |init|)
    ensures MarksAt(t, init, d, b, m)
  {
    assert (init + [last])[..|init|] == init && (init + [last])[|init|] == last;
    forall n | 0 <= n < |init[..m]| && init[..m][n].0 in t.intents
      ensures !Later(t.intents[init[..m][n].0], t.intents[last.0])
    {
      assert init[..m][n] == init[n];
    }
  }

  /**
    Which books a schedule marks, exactly: b ends grabbed if some call marks it, and
    otherwise every book keeps the status it had.
   */
  lemma {:induction false} BooksAfterAll(t: Tables, calls: seq<(IntentId, Time)>, k: DownloadKey, b: string)
    requires Sharing(t, calls, k)
    ensures var books := FinalizeAll(t, calls).wanted;
      && books.Keys == t.wanted.Keys
      && (b in books ==>
          books[b] == if SomeMarks(t, calls, t.downloads[k], b) then MarkGrabbed(t.wanted, b)[b] else t.wanted[b])
  {
    if calls != [] {
      var n := |calls| - 1;
      var init, last := calls[..n], calls[n];
      assert calls == init + [last];
      BooksAfterAll(t, init, k, b);
      RepairsKeepReceipts(t, init);
      SomeMarksStep(t, init, last, t.downloads[k], b);
      if !SomeMarks(t, init, t.downloads[k], b) { BookStep(t, init, last, k, b); }
      assert SameReceipt(t.intents[last.0], FinalizeAll(t, init).intents[last.0]);
      BookAfterOne(FinalizeAll(t, init), last.0, last.1, k);
    }
  }

  /** The download's original link is later than every called receipt. */
  ghost predicate AllOutranked(t: Tables, calls: seq<(IntentId, Time)>, d: Download) {
    forall n :: 0 <= n < |calls| && calls[n].0 in t.intents ==> LinkIsNewer(t, d, t.intents[calls[n].0])
  }

  lemma {:induction false} FirstUnblockedMarks(t: Tables, calls: seq<(IntentId, Time)>, d: Download, b: string, n: nat)
    requires n < |calls| && calls[n].0 in t.intents && !LinkIsNewer(t, d, t.intents[calls[n].0])
    requires forall m :: 0 <= m < |calls| && calls[m].0 in t.intents ==>
      GrabsBook(t.intents[calls[m].0], d) && t.intents[calls[m].0].request.wantedId == b
    ensures SomeMarks(t, calls, d, b)
  {
    if m :| 0 <= m < n && calls[m].0 in t.intents && !LinkIsNewer(t, d, t.intents[calls[m].0]) {
      FirstUnblockedMarks(t, calls, d, b, m);
    } else {
      forall m | 0 <= m < n && calls[..n][m].0 in t.intents
        ensures !Later(t.intents[calls[..n][m].0], t.intents[calls[n].0])
      {
        assert calls[..n][m] == calls[m];
      }
      assert MarksAt(t, calls, d, b, n);
    }
  }

  /** Calls that name one book's unbooked receipts. */
  ghost predicate OneBook(t: Tables, calls: seq<(IntentId, Time)>, b: string) {
    b != "" && forall n :: 0 <= n < |calls| && calls[n].0 in t.intents ==>
      t.intents[calls[n].0].request.wantedId == b && t.intents[calls[n].0].bookkeepingAt.None?
  }

  lemma OneBookMarks(t: Tables, calls: seq<(IntentId, Time)>, d: Download, b: string, x: string)
    requires OneBook(t, calls, b) && forall n :: 0 <= n < |calls| ==> calls[n].0 in t.intents
    ensures SomeMarks(t, calls, d, x) <==> x == b && Fresh(d) && !AllOutranked(t, calls, d)
  {
    if x == b && Fresh(d) && !AllOutranked(t, calls, d) {
      var n :| 0 <= n < |calls| && calls[n].0 in t.intents && !LinkIsNewer(t, d, t.intents[calls[n].0]);
      FirstUnblockedMarks(t, calls, d, b, n);
    }
  }

  /** For one book and receipts not yet booked, any order and repetition gives the book the same status. */
  lemma BookAfterAll(t: Tables, calls: seq<(IntentId, Time)>, k: DownloadKey, b: string)
    requires Sharing(t, calls, k) && OneBook(t, calls, b)
    ensures FinalizeAll(t, calls).wanted
      == if Fresh(t.downloads[k]) && !AllOutranked(t, calls, t.downloads[k]) then MarkGrabbed(t.wanted, b) else t.wanted
  {
    BooksAfterAll(t, calls, k, b);
    var books := FinalizeAll(t, calls).wanted;
    forall x | x in books
      ensures books[x] == if x == b && Fresh(t.downloads[k]) && !AllOutranked(t, calls, t.downloads[k])
          then MarkGrabbed(t.wanted, b)[b] else t.wanted[x]
    {
      BooksAfterAll(t, calls, k, x);
      OneBookMarks(t, calls, t.downloads[k], b, x);
    }
  }

  /** Only the older of the two receipts would mark its book, and only while nothing newer is linked. */
  ghost predicate OrderShows(t: Tables, older: IntentId, newer: IntentId, k: DownloadKey)
    requires older in t.intents && newer in t.intents && k in t.downloads
  {
    var i, j, d := t.intents[older], t.intents[newer], t.downloads[k];
    var book := i.request.wantedId;
    && !LinkIsNewer(t, d, i) && GrabsBook(i, d)
    && book in t.wanted && !Protected(t.wanted[book].status) && t.wanted[book].status != "grabbed"
    && !(GrabsBook(j, d) && j.request.wantedId == book)
  }

  /** What two repairs in a row do to the books. */
  lemma TwoRepairs(t: Tables, x: IntentId, y: IntentId, first: Time, second: Time, k: DownloadKey)
    requires Sharing(t, [(x, first)], k) && Sharing(t, [(y, second)], k) && x in t.intents && y in t.intents && x != y
    ensures var i, j, d := t.intents[x], t.intents[y], t.downloads[k];
      var books := if !LinkIsNewer(t, d, i) && GrabsBook(i, d) then MarkGrabbed(t.wanted, i.request.wantedId)
          else t.wanted;
      Finalize(Finalize(t, x, first), y, second).wanted
        == if !LinkIsNewer(t, d, j) && !Later(i, j) && GrabsBook(j, d) then MarkGrabbed(books, j.request.wantedId)
            else books
  {
    var calls := [(x, first)];
    assert calls[0].0 == x && [(y, second)][0].0 == y;
    assert calls[..0] == [] && FinalizeAll(t, []) == t;
    var t1 := FinalizeAll(t, calls);
    BookAfterOne(t, x, first, k);
    OutrankedAfterAll(t, calls, k, y);
    ObservationsAfterAll(t, calls, k);
    RepairsKeepReceipts(t, calls);
    EventsAfterAll(t, calls, k, y);
    assert SameReceipt(t.intents[y], t1.intents[y]);
    assert Called(calls, y) <==> x == y;
    BookAfterOne(t1, y, second, k);
  }

  lemma MarksDiffer(books: map<string, Wanted>, x: string, y: string, mx: bool, my: bool)
    ensures var once := if mx then MarkGrabbed(books, x) else books;
      (if my then MarkGrabbed(once, y) else once) != (if my then MarkGrabbed(books, y) else books)
      <==> mx && x in books && !Protected(books[x].status) && books[x].status != "grabbed" && !(my && x == y)
  {
    var once := if mx then MarkGrabbed(books, x) else books;
    var both, alone := if my then MarkGrabbed(once, y) else once, if my then MarkGrabbed(books, y) else books;
    if mx && x in books && !(my && x == y) { assert both[x] == once[x] && alone[x] == books[x]; }
  }

  /** An older receipt repaired after a newer one no longer marks its own book; that is the only way the order shows. */
  lemma BooksDependOnOrderExactly(t: Tables, older: IntentId, newer: IntentId, first: Time, second: Time,
          k: DownloadKey)
    requires Sharing(t, [(older, first), (newer, second)], k) && older in t.intents && newer in t.intents
    requires Later(t.intents[newer], t.intents[older])
    ensures var a, b := Finalize(Finalize(t, older, first), newer, second),
               Finalize(Finalize(t, newer, first), older, second);
      a.wanted != b.wanted <==> OrderShows(t, older, newer, k)
  {
    var i, j, d := t.intents[older], t.intents[newer], t.downloads[k];
    assert [(older, first), (newer, second)][0].0 == older && [(older, first), (newer, second)][1].0 == newer;
    TwoRepairs(t, older, newer, first, second, k);
    TwoRepairs(t, newer, older, first, second, k);
    MarksDiffer(t.wanted, i.request.wantedId, j.request.wantedId,
                !LinkIsNewer(t, d, i) && GrabsBook(i, d), !LinkIsNewer(t, d, j) && GrabsBook(j, d));
  }
}
