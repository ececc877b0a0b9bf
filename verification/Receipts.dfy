/** Where a receipt comes from: an Add reply, or the one listed download that is the intent's. */
module Receipts {
  import opened Text
  import opened Records
  import opened Downloads
  import opened Protocol
  import opened ClaimSafety
  import opened Histories
  import opened Replays
  import Reconcile
  import Identity
  import Bookkeeping

  predicate NameIsUrl(st: Status) {
    HasPrefix(st.live.name, "http://") || HasPrefix(st.live.name, "https://") || HasPrefix(st.live.name, "magnet:")
  }

  /** The one call. A reply with a real download id is saved; any other answer leaves the download to be looked for. */
  lemma AddSettles(s: State, s': State, w: Worker, reply: Reply)
    requires SendAdd(s, s', w, reply)
    ensures s'.t == s.t && s'.adds == s.adds + [At(s, w).row.id]
    ensures reply.AddFailed? ==> At(s', w) == ReportUncertain(At(s, w).row)
    ensures reply.Added? ==>
      var st := reply.status;
      At(s', w) ==
        if ((st.client == "qBittorrent" || st.client == "Transmission") && Identity.Canonical(Trim(st.id)) != "")
           || (st.client == "SABnzbd" && Trim(st.id) != "")
        then SaveReceipt(At(s, w).row, if NameIsUrl(st) then st.(live := st.live.(name := "Download")) else st)
        else ListClient(At(s, w).row, "")
  {}

  lemma ClaimedCarries(row: Intent, st: Status)
    ensures Claimed(row, st) ==
      (if NameIsUrl(st) then st.(live := st.live.(name := "Download")) else st).(tags := Attach(st.tags, row))
    ensures Clean(st.tags) ==> forall x :: x != "" ==>
      (x in Attach(st.tags, row) <==>
       || x in st.tags || x == "librarry" || x == "librarry-intent:" + Records.Marks(row.id)
       || (row.request.wantedId != "" && x == "wanted:" + row.request.wantedId))
  {
    if Clean(st.tags) {
      forall x: string | x != ""
        ensures x in Attach(st.tags, row) <==> x in st.tags || Contributes(row, x)
      {
        AttachContents(st.tags, row, x);
      }
    }
  }

  /**
    Looking a download up sends nothing and writes nothing. The receipt is the one listed
    download that is the intent's, with its association added; a changed endpoint, a failed
    list, no match or several leave the intent uncertain.
   */
  lemma ListSettles(s: State, s': State, w: Worker, endpointHash: string, listed: Option<seq<Status>>)
    requires ListOnce(s, s', w, endpointHash, listed)
    ensures s'.t == s.t && s'.adds == s.adds
    ensures listed.None? || At(s, w).row.request.endpointHash != endpointHash ==>
      At(s', w) == ReportUncertain(At(s, w).row)
    ensures listed.Some? && At(s, w).row.request.endpointHash == endpointHash ==>
      var row, downloadId, entries := At(s, w).row, At(s, w).downloadId, listed.value;
      var fits := set n | 0 <= n < |entries| && entries[n].client == row.request.client
          && (downloadId != "" ==> entries[n].id == downloadId)
          && (downloadId == "" ==>
                (row.request.infoHash != "" && Lower(row.request.infoHash) == Lower(entries[n].id))
                || "librarry-intent:" + Records.Marks(row.id) in entries[n].tags);
      && (|fits| != 1 ==> At(s', w) == ReportUncertain(row))
      && (forall n :: fits == {n} ==> At(s', w) == SaveReceipt(row, Claimed(row, entries[n])))
  {
    if listed.Some? { Reconcile.ConclusiveMeans(At(s, w).row, At(s, w).downloadId, listed.value); }
  }

  ghost predicate Answered(s: State, s': State, w: Worker) {
    exists reply :: SendAdd(s, s', w, reply)
  }

  ghost predicate LookedUp(s: State, s': State, w: Worker) {
    exists endpointHash, listed :: ListOnce(s, s', w, endpointHash, listed)
  }

  /** Steps of others, and every other step of its own, put no receipt in a worker's hands. */
  lemma OtherStepsSaveNothing(h: LockIds, s: State, s': State, v: Worker, w: Worker)
    requires Bookkeeping.Keyed(s.t) && Step(h, s, s', v) && At(s', w).SaveReceipt? && At(s', w) != At(s, w)
    ensures Answered(s, s', w) || LookedUp(s, s', w)
  {
    if v != w { OthersStay(h, s, s', v, w); }
    else if ClaimStep(h, s, s', w) { ClaimSavesNothing(h, s, s', w); }
    else if QuietStep(s, s', w) { QuietSaves(s, s', w); }
    else if RowStep(s, s', w) { RowSavesNothing(s, s', w); }
    else if WorldStep(s, s') { WorldMovesNobody(s, s'); }
  }

  lemma QuietSaves(s: State, s': State, w: Worker)
    requires QuietStep(s, s', w) && At(s', w).SaveReceipt? && At(s', w) != At(s, w)
    ensures Answered(s, s', w) || LookedUp(s, s', w)
  {
    if rows :| LinkQuery(s, s', w, rows) {}
    else if WriteRow(s, s', w) {}
    else if GetIntent(s, s', w) || ReplayReceipt(s, s', w) { ReadsSaveNothing(s, s', w); }
    else if !Answered(s, s', w) && !LookedUp(s, s', w) { BeginningsSaveNothing(s, s', w); }
  }

  lemma ReadsSaveNothing(s: State, s': State, w: Worker)
    requires GetIntent(s, s', w) || ReplayReceipt(s, s', w)
    ensures !At(s', w).SaveReceipt?
  {}

  lemma BeginningsSaveNothing(s: State, s': State, w: Worker)
    requires (exists c :: BeginClaim(s, s', w, c)) || (exists id, d :: BeginReconcile(s, s', w, id, d))
        || (exists listed :: BeginPoll(s, s', w, listed))
    ensures !At(s', w).SaveReceipt?
  {
    if c :| BeginClaim(s, s', w, c) {}
    else if id, d :| BeginReconcile(s, s', w, id, d) {}
    else { var listed :| BeginPoll(s, s', w, listed); }
  }

  lemma RowSavesNothing(s: State, s': State, w: Worker)
    requires RowStep(s, s', w)
    ensures At(s', w).SaveReceipt? ==> At(s', w) == At(s, w)
  {
    if token :| RecoverStatement(s, s', w, token) { RecoverSavesNothing(s, s', w, token); }
    else if ok :| AcceptStatement(s, s', w, ok) { AcceptSavesNothing(s, s', w, ok); }
    else if UncertainStatement(s, s', w) { UncertainSavesNothing(s, s', w); }
    else if id :| OperatorRelease(s, s', id) {}
  }

  lemma RecoverSavesNothing(s: State, s': State, w: Worker, token: Token)
    requires RecoverStatement(s, s', w, token)
    ensures !At(s', w).SaveReceipt?
  {}

  lemma AcceptSavesNothing(s: State, s': State, w: Worker, ok: bool)
    requires AcceptStatement(s, s', w, ok)
    ensures !At(s', w).SaveReceipt?
  {}

  lemma UncertainSavesNothing(s: State, s': State, w: Worker)
    requires UncertainStatement(s, s', w)
    ensures !At(s', w).SaveReceipt?
  {}

  lemma ClaimSavesNothing(h: LockIds, s: State, s': State, w: Worker)
    requires ClaimStep(h, s, s', w)
    ensures !At(s', w).SaveReceipt?
  {
    if TakeRequestLock(h, s, s', w) || TakeScopeLock(h, s, s', w) || SelectNone(s, s', w) {
      EarlyStepsSaveNothing(h, s, s', w);
    }
    else if id :| SelectExisting(s, s', w, id) { SelectSavesNothing(s, s', w, id); }
    else if JudgeExisting(s, s', w) { JudgeSavesNothing(s, s', w); }
    else if RetireByRequest(s, s', w) || CheckOtherRequest(s, s', w) { RequestChecksSaveNothing(s, s', w); }
    else if CheckEligible(s, s', w) { EligibleSavesNothing(s, s', w); }
    else { LateChecksSaveNothing(s, s', w); }
  }

  lemma EarlyStepsSaveNothing(h: LockIds, s: State, s': State, w: Worker)
    requires TakeRequestLock(h, s, s', w) || TakeScopeLock(h, s, s', w) || SelectNone(s, s', w)
    ensures !At(s', w).SaveReceipt?
  {}

  lemma RequestChecksSaveNothing(s: State, s': State, w: Worker)
    requires RetireByRequest(s, s', w) || CheckOtherRequest(s, s', w)
    ensures !At(s', w).SaveReceipt?
  {}

  lemma EligibleSavesNothing(s: State, s': State, w: Worker)
    requires CheckEligible(s, s', w)
    ensures !At(s', w).SaveReceipt?
  {}

  lemma SelectSavesNothing(s: State, s': State, w: Worker, id: IntentId)
    requires SelectExisting(s, s', w, id)
    ensures !At(s', w).SaveReceipt?
  {}

  lemma JudgeSavesNothing(s: State, s': State, w: Worker)
    requires JudgeExisting(s, s', w)
    ensures !At(s', w).SaveReceipt?
  {}

  lemma LateChecksSaveNothing(s: State, s': State, w: Worker)
    requires CheckNoActive(s, s', w) || LoadSelected(s, s', w)
    ensures !At(s', w).SaveReceipt?
  {}

  /**
    Every receipt about to be saved in any run was put there by one Add reply or one client
    list, for the same intent, and nothing touched it since.
   */
  lemma {:induction false} ReceiptHasASource(h: LockIds, run: seq<State>, k: nat, w: Worker) returns (i: nat)
    requires Run(h, run) && k < |run| && At(run[k], w).SaveReceipt?
    ensures i < k && At(run[i + 1], w) == At(run[k], w)
    ensures (At(run[i], w).Send? || At(run[i], w).ListClient?) && At(run[i], w).row == At(run[k], w).row
    ensures Answered(run[i], run[i + 1], w) || LookedUp(run[i], run[i + 1], w)
  {
    if At(run[k - 1], w) == At(run[k], w) {
      i := ReceiptHasASource(h, run, k - 1, w);
    } else {
      i := k - 1;
      RunKeepsClaimInv(h, run, i);
      RunNext(h, run, k);
      var v :| Step(h, run[i], run[k], v);
      OtherStepsSaveNothing(h, run[i], run[k], v, w);
    }
  }

  /** A claim that meets a live row of its scope sends nothing: it turns to that row's own request, or gives up. */
  lemma MeetsExisting(s: State, s': State, w: Worker, id: IntentId)
    requires SelectExisting(s, s', w, id)
    ensures var row := s.t.intents[id];
      && s'.t == s.t && s'.adds == s.adds
      && row.phase != Released && row.request.scopeKey == At(s, w).c.scopeKey
      && (row.phase == Accepted ==> At(s', w) == Protocol.JudgeScope(At(s, w).c, id))
      && (row.phase != Accepted ==>
            At(s', w) == if row.request.requestKey == At(s, w).c.requestKey then Get(row.id, "") else Idle)
  {}

  /** And one whose receipt still holds its book turns to the receipt, if it is the same request's. */
  lemma MeetsReceipt(s: State, s': State, w: Worker)
    requires JudgeExisting(s, s', w) && s.t.intents[At(s, w).existing].phase == Accepted
    requires !At(s', w).RetireRequest?
    ensures var row := s.t.intents[At(s, w).existing];
      && s'.t == s.t && s'.adds == s.adds
      && At(s', w) == if row.request.requestKey != At(s, w).c.requestKey then Idle
                      else if row.receipt.Some? then Replay(row.id, row.receipt.value) else Get(row.id, "")
  {}
}
