/**
  What a run may do to an intent row, statement by statement in the row's own columns, and
  on what evidence a slot is ever freed.
 */
module Evidence {
  import opened Text
  import opened Records
  import opened Statements
  import opened Protocol
  import opened ClaimSafety
  import opened Histories
  import opened Replays
  import Bookkeeping

  // ---- every change of a row ----

  lemma MovedLawfully(s: State, a: Intent, m: Move)
    requires MayMove(s, a, m)
    ensures var b, now := Moved(s, a, m), s.clock;
      match m
      case Accepts(st) =>
        && (a.phase == Submitting || a.phase == Uncertain)
        && a.leaseToken.Some? && a.leaseExpires.Some? && a.leaseExpires.value > now
        && b == a.(phase := Accepted, externalId := st.id, receipt := Some(st),
                   leaseToken := None, leaseExpires := None, nextCheck := None)
      case Marks =>
        && (a.phase == Submitting || a.phase == Uncertain) && a.leaseToken.Some?
        && b == a.(phase := Uncertain, leaseToken := None, leaseExpires := None,
                   nextCheck := Some(now + Backoff(a.attempts)))
      case Recovers(token) =>
        && (a.phase == Submitting || a.phase == Uncertain) && token !in s.issued
        && (a.leaseExpires.Some? ==> a.leaseExpires.value < now) && (a.nextCheck.Some? ==> a.nextCheck.value <= now)
        && b == a.(phase := Uncertain, leaseToken := Some(token), leaseExpires := Some(now + 120 * SECOND),
                   attempts := a.attempts + 1)
      case Releases =>
        && (a.phase == Submitting || a.phase == Uncertain)
        && (a.leaseExpires.Some? ==> a.leaseExpires.value < now)
        && b == a.(phase := Released, leaseToken := None, leaseExpires := None)
      case Books =>
        a.phase == Accepted && a.bookkeepingRequired && a.bookkeepingAt.None? && b == a.(bookkeepingAt := Some(now))
  {}

  /**
    Over any step of any run a row is still there, and is as it was or changed by one
    statement whose conditions held: an acceptance or an uncertain report under a token, an
    acceptance before the lease ran out, a recovery or an operator's release after it, the
    bookkeeping mark once, or a retirement of a settled receipt.
   */
  lemma RowChangesLawfully(h: LockIds, run: seq<State>, k: nat, id: IntentId)
    requires Run(h, run) && 0 < k < |run| && id in run[k - 1].t.intents
    ensures id in run[k].t.intents
    ensures var a, b, now := run[k - 1].t.intents[id], run[k].t.intents[id], run[k - 1].clock;
      || b == a
      || ((a.phase == Submitting || a.phase == Uncertain)
          && ((b.phase == Accepted && b.receipt.Some?
               && a.leaseToken.Some? && a.leaseExpires.Some? && a.leaseExpires.value > now
               && b == a.(phase := Accepted, externalId := b.receipt.value.id, receipt := b.receipt,
                          leaseToken := None, leaseExpires := None, nextCheck := None))
              || (b.phase == Uncertain && a.leaseToken.Some?
                  && b == a.(phase := Uncertain, leaseToken := None, leaseExpires := None,
                             nextCheck := Some(now + Backoff(a.attempts))))
              || (b.phase == Uncertain && b.leaseToken.Some? && b.leaseToken.value !in run[k - 1].issued
                  && (a.leaseExpires.Some? ==> a.leaseExpires.value < now)
                  && (a.nextCheck.Some? ==> a.nextCheck.value <= now)
                  && b == a.(phase := Uncertain, leaseToken := b.leaseToken, leaseExpires := Some(now + 120 * SECOND),
                             attempts := a.attempts + 1))
              || (b.phase == Released && (a.leaseExpires.Some? ==> a.leaseExpires.value < now)
                  && b == a.(phase := Released, leaseToken := None, leaseExpires := None))))
      || (a.phase == Accepted
          && ((a.bookkeepingRequired && a.bookkeepingAt.None? && b == a.(bookkeepingAt := Some(now)))
              || ((!a.bookkeepingRequired || a.bookkeepingAt.Some?) && b == a.(phase := Released))))
  {
    RunDigest(h, run, k);
    var s, s' := run[k - 1], run[k];
    if MovesOne(s, s') {
      var x, m :| OneRow(s, s', x, m);
      MovedLawfully(s, s.t.intents[x], m);
    } else if !NoRow(s, s') {
      var x :| Inserts(s, s', x);
    }
  }

  /** While a lease runs, no step frees the slot: not the operator's, not a claim's. */
  lemma RunningLeaseHoldsTheSlot(h: LockIds, run: seq<State>, k: nat, id: IntentId)
    requires Run(h, run) && 0 < k < |run| && id in run[k - 1].t.intents
    requires run[k - 1].t.intents[id].phase == Submitting || run[k - 1].t.intents[id].phase == Uncertain
    requires run[k - 1].t.intents[id].leaseExpires.Some?
    requires run[k - 1].t.intents[id].leaseExpires.value >= run[k - 1].clock
    ensures id in run[k].t.intents && run[k].t.intents[id].phase != Released
  {
    RowChangesLawfully(h, run, k, id);
  }

  // ---- what each lease statement does ----

  /** The acceptance takes effect exactly under the row's own token and a running lease. */
  lemma AcceptExactly(s: State, s': State, w: Worker, ok: bool)
    requires Bookkeeping.Keyed(s.t) && AcceptStatement(s, s', w, ok)
    ensures var sent, st := At(s, w).row, At(s, w).status;
      s'.t == if sent.id in s.t.intents
                 && (s.t.intents[sent.id].phase == Submitting || s.t.intents[sent.id].phase == Uncertain)
                 && sent.leaseToken.Some? && s.t.intents[sent.id].leaseToken == sent.leaseToken
                 && s.t.intents[sent.id].leaseExpires.Some? && s.t.intents[sent.id].leaseExpires.value > s.clock
              then s.t.(intents := s.t.intents[sent.id := s.t.intents[sent.id].(
                     phase := Accepted, externalId := st.id, receipt := Some(st),
                     leaseToken := None, leaseExpires := None, nextCheck := None)])
              else s.t
  {}

  lemma SavedGoesOn(s: State, s': State, w: Worker, ok: bool)
    requires Bookkeeping.Keyed(s.t) && AcceptStatement(s, s', w, ok) && TokenAccepts(s, At(s, w).row)
    ensures s'.t.intents[At(s, w).row.id].phase == Accepted && s.t.intents[At(s, w).row.id].phase != Accepted
    ensures At(s', w) ==
      if ok then ReadLinks([At(s, w).status], Some(At(s, w).row.id)) else ReportUncertain(At(s, w).row)
  {}

  /** A worker that is told its receipt was saved goes on to store the download; one that is not reports uncertainty. */
  lemma AcceptGoesOn(s: State, s': State, w: Worker, ok: bool)
    requires Bookkeeping.Keyed(s.t) && AcceptStatement(s, s', w, ok)
    ensures s'.t != s.t && ok ==> At(s', w) == ReadLinks([At(s, w).status], Some(At(s, w).row.id))
    ensures s'.t == s.t || !ok ==> At(s', w) == ReportUncertain(At(s, w).row)
  {
    if TokenAccepts(s, At(s, w).row) { SavedGoesOn(s, s', w, ok); }
  }

  /** The uncertain report takes effect exactly under the row's own token. */
  lemma UncertainExactly(s: State, s': State, w: Worker)
    requires Bookkeeping.Keyed(s.t) && UncertainStatement(s, s', w)
    ensures var sent := At(s, w).row;
      s'.t == if sent.id in s.t.intents
                 && (s.t.intents[sent.id].phase == Submitting || s.t.intents[sent.id].phase == Uncertain)
                 && sent.leaseToken.Some? && s.t.intents[sent.id].leaseToken == sent.leaseToken
              then s.t.(intents := s.t.intents[sent.id := s.t.intents[sent.id].(
                     phase := Uncertain, leaseToken := None, leaseExpires := None,
                     nextCheck := Some(s.clock + Backoff(s.t.intents[sent.id].attempts)))])
              else s.t
  {}

  /** The recovery takes effect exactly on an open row whose lease and next check are past. */
  lemma RecoverExactly(s: State, s': State, w: Worker, token: Token)
    requires Bookkeeping.Keyed(s.t) && RecoverStatement(s, s', w, token)
    ensures var id := At(s, w).id;
      s'.t == if id in s.t.intents
                 && (s.t.intents[id].phase == Submitting || s.t.intents[id].phase == Uncertain)
                 && (s.t.intents[id].leaseExpires.Some? ==> s.t.intents[id].leaseExpires.value < s.clock)
                 && (s.t.intents[id].nextCheck.Some? ==> s.t.intents[id].nextCheck.value <= s.clock)
              then s.t.(intents := s.t.intents[id := s.t.intents[id].(
                     phase := Uncertain, leaseToken := Some(token), leaseExpires := Some(s.clock + 120 * SECOND),
                     attempts := s.t.intents[id].attempts + 1)])
              else s.t
  {}

  // ---- a claim retires only on evidence ----

  /** The receipt's download was removed or failed; or is imported while another release of its scope is asked for. */
  ghost predicate Shown(t: Tables, c: Candidate, id: IntentId) {
    && id in t.intents && t.intents[id].phase == Accepted
    && (!t.intents[id].bookkeepingRequired || t.intents[id].bookkeepingAt.Some?)
    && (t.intents[id].request.scopeKey == c.scopeKey || t.intents[id].request.requestKey == c.requestKey)
    && var key := DownloadKey(t.intents[id].request.client, t.intents[id].externalId);
       && key in t.downloads
       && (t.downloads[key].state == "removed" || t.downloads[key].failedAt.Some?
           || (t.downloads[key].importStatus == "imported" && t.intents[id].request.scopeKey == c.scopeKey
               && t.intents[id].request.requestKey != c.requestKey))
  }

  /** The scope's receipt is let go only on evidence in the row of its download. */
  lemma JudgedOnEvidence(s: State, s': State, w: Worker)
    requires JudgeExisting(s, s', w) && At(s, w).existing in s.t.intents
    requires s.t.intents[At(s, w).existing].phase == Accepted
    requires s.t.intents[At(s, w).existing].request.scopeKey == At(s, w).c.scopeKey
    ensures var c, i := At(s, w).c, s.t.intents[At(s, w).existing];
      At(s', w).RetireRequest? <==>
        (!i.bookkeepingRequired || i.bookkeepingAt.Some?)
        && (var key := DownloadKey(i.request.client, i.externalId);
            && key in s.t.downloads
            && (s.t.downloads[key].state == "removed" || s.t.downloads[key].failedAt.Some?
                || (s.t.downloads[key].importStatus == "imported" && i.request.requestKey != c.requestKey)))
    ensures At(s', w).RetireRequest? ==> At(s', w) == RetireRequest(At(s, w).c, {At(s, w).existing})
  {
    var i, c := s.t.intents[At(s, w).existing], At(s, w).c;
    assert AfterExisting(i, c).RetireRequest? == false;
  }

  /** Receipts of the same request are retired exactly on evidence that their downloads were removed or failed. */
  lemma RetiredByRequestOnEvidence(s: State, s': State, w: Worker, x: IntentId)
    requires RetireByRequest(s, s', w)
    ensures At(s', w).CheckRequest? && At(s', w).c == At(s, w).c
    ensures x in At(s', w).retired <==>
      x in At(s, w).retired ||
      (x in s.t.intents && s.t.intents[x].phase == Accepted
       && (!s.t.intents[x].bookkeepingRequired || s.t.intents[x].bookkeepingAt.Some?)
       && s.t.intents[x].request.requestKey == At(s, w).c.requestKey
       && var key := DownloadKey(s.t.intents[x].request.client, s.t.intents[x].externalId);
          key in s.t.downloads && (s.t.downloads[key].state == "removed" || s.t.downloads[key].failedAt.Some?))
  {}

  ghost predicate ShownAt(run: seq<State>, c: Candidate, id: IntentId, i: int) {
    0 <= i < |run| && Shown(run[i].t, c, id)
  }

  /** Every row a claim has set out to retire showed the evidence in some earlier state. */
  ghost predicate RetiresShown(run: seq<State>, k: nat, w: Worker)
    requires k < |run|
  {
    var pc := At(run[k], w);
    && (pc.JudgeScope? ==>
        pc.existing in run[k].t.intents && run[k].t.intents[pc.existing].request.scopeKey == pc.c.scopeKey)
    && (ScopeRead(pc) ==> forall id :: id in pc.retired ==> exists i :: i <= k && ShownAt(run, pc.c, id, i))
  }

  /**
    One step of worker w: what it retires now it retired before, for the same keys, or the
    evidence shows right now.
   */
  ghost predicate RetiresOn(s: State, s': State, w: Worker) {
    var pc, pc' := At(s, w), At(s', w);
    && (pc'.JudgeScope? ==>
        || (pc.JudgeScope? && pc' == pc)
        || (pc'.existing in s.t.intents && s.t.intents[pc'.existing].request.scopeKey == pc'.c.scopeKey))
    && (ScopeRead(pc') ==> forall id :: id in pc'.retired ==>
          || (ScopeRead(pc) && id in pc.retired
              && pc'.c.scopeKey == pc.c.scopeKey && pc'.c.requestKey == pc.c.requestKey)
          || Shown(s.t, pc'.c, id))
  }

  lemma JudgeRetires(h: LockIds, s: State, s': State, w: Worker)
    requires ClaimInv(h, s) && JudgeExisting(s, s', w)
    requires s.t.intents[At(s, w).existing].request.scopeKey == At(s, w).c.scopeKey
    ensures RetiresOn(s, s', w)
  {
    assert Knows(h, s, w);
    assert At(s, w).existing in Holding(At(s, w)) && HeldRow(s, w, At(s, w).existing);
    JudgedOnEvidence(s, s', w);
  }

  lemma RequestRetires(s: State, s': State, w: Worker)
    requires RetireByRequest(s, s', w)
    ensures RetiresOn(s, s', w)
  {
    forall x | x in At(s', w).retired ensures x in At(s, w).retired || Shown(s.t, At(s', w).c, x) {
      RetiredByRequestOnEvidence(s, s', w, x);
    }
  }

  lemma SelectRetires(h: LockIds, s: State, s': State, w: Worker)
    requires TakeRequestLock(h, s, s', w) || TakeScopeLock(h, s, s', w) || SelectNone(s, s', w)
             || exists id :: SelectExisting(s, s', w, id)
    ensures RetiresOn(s, s', w)
  {
    if id :| SelectExisting(s, s', w, id) {}
  }

  lemma ChecksRetire(s: State, s': State, w: Worker)
    requires CheckOtherRequest(s, s', w) || CheckEligible(s, s', w)
    ensures RetiresOn(s, s', w)
  {}

  lemma LateChecksRetire(s: State, s': State, w: Worker)
    requires CheckNoActive(s, s', w) || LoadSelected(s, s', w)
    ensures RetiresOn(s, s', w)
  {}

  lemma ClaimStepRetires(h: LockIds, s: State, s': State, w: Worker)
    requires ClaimInv(h, s) && ClaimStep(h, s, s', w)
    requires At(s, w).JudgeScope? ==>
      && At(s, w).existing in s.t.intents
      && s.t.intents[At(s, w).existing].request.scopeKey == At(s, w).c.scopeKey
    ensures RetiresOn(s, s', w)
  {
    if JudgeExisting(s, s', w) { JudgeRetires(h, s, s', w); }
    else if RetireByRequest(s, s', w) { RequestRetires(s, s', w); }
    else if CheckOtherRequest(s, s', w) || CheckEligible(s, s', w) { ChecksRetire(s, s', w); }
    else if CheckNoActive(s, s', w) || LoadSelected(s, s', w) { LateChecksRetire(s, s', w); }
    else { SelectRetires(h, s, s', w); }
  }

  lemma RowEffectRetires(s: State, s': State, w: Worker)
    requires RowEffect(s, s', w)
    ensures RetiresOn(s, s', w)
  {}

  lemma StepRetires(h: LockIds, s: State, s': State, v: Worker, w: Worker)
    requires ClaimInv(h, s) && Step(h, s, s', v)
    requires At(s, w).JudgeScope? ==>
      && At(s, w).existing in s.t.intents
      && s.t.intents[At(s, w).existing].request.scopeKey == At(s, w).c.scopeKey
    ensures RetiresOn(s, s', w)
  {
    if v != w { OthersStay(h, s, s', v, w); StayingRetires(s, s', w); }
    else if ClaimStep(h, s, s', w) { ClaimStepRetires(h, s, s', w); }
    else if QuietStep(s, s', w) { QuietStepEffect(s, s', w); RowEffectRetires(s, s', w); }
    else if RowStep(s, s', w) { RowStepEffect(s, s', w); RowEffectRetires(s, s', w); }
    else if WorldStep(s, s') { WorldMovesNobody(s, s'); StayingRetires(s, s', w); }
    else { EndingRetires(h, s, s', w); }
  }

  lemma StayingRetires(s: State, s': State, w: Worker)
    requires At(s', w) == At(s, w)
    ensures RetiresOn(s, s', w)
  {}

  lemma EndingRetires(h: LockIds, s: State, s': State, w: Worker)
    requires Crash(s, s', w) || exists id, token, began, required :: CommitClaim(s, s', w, id, token, began, required)
    ensures RetiresOn(s, s', w)
  {}

  lemma RetiresShownStep(h: LockIds, run: seq<State>, k: nat, w: Worker)
    requires Run(h, run) && 0 < k < |run| && RetiresShown(run, k - 1, w) && RetiresOn(run[k - 1], run[k], w)
    requires RowsEvolve(run[k - 1], run[k])
    ensures RetiresShown(run, k, w)
  {
    var pc, pc' := At(run[k - 1], w), At(run[k], w);
    if ScopeRead(pc') {
      forall id | id in pc'.retired ensures exists i :: i <= k && ShownAt(run, pc'.c, id, i) {
        if Shown(run[k - 1].t, pc'.c, id) {
          assert ShownAt(run, pc'.c, id, k - 1);
        } else {
          var i :| i <= k - 1 && ShownAt(run, pc.c, id, i);
          assert ShownAt(run, pc'.c, id, i);
        }
      }
    }
  }

  lemma NextRetires(h: LockIds, s: State, s': State, w: Worker)
    requires ClaimInv(h, s) && Next(h, s, s')
    requires At(s, w).JudgeScope? ==>
      && At(s, w).existing in s.t.intents
      && s.t.intents[At(s, w).existing].request.scopeKey == At(s, w).c.scopeKey
    ensures RetiresOn(s, s', w)
  {
    var v :| Step(h, s, s', v);
    StepRetires(h, s, s', v, w);
  }

  lemma RetiresOnAt(h: LockIds, run: seq<State>, k: nat, w: Worker)
    requires Run(h, run) && 0 < k < |run| && RetiresShown(run, k - 1, w)
    ensures RetiresOn(run[k - 1], run[k], w) && RowsEvolve(run[k - 1], run[k])
  {
    RunKeepsClaimInv(h, run, k - 1);
    RunNext(h, run, k);
    NextRetires(h, run[k - 1], run[k], w);
    RunDigest(h, run, k);
    DigestEvolves(run[k - 1], run[k]);
  }

  lemma {:induction false} RunRetiresShown(h: LockIds, run: seq<State>, k: nat, w: Worker)
    requires Run(h, run) && k < |run|
    ensures RetiresShown(run, k, w)
  {
    if k > 0 {
      RunRetiresShown(h, run, k - 1, w);
      RetiresOnAt(h, run, k, w);
      RetiresShownStep(h, run, k, w);
    }
  }

  lemma ReleasedByCommit(h: LockIds, s: State, s': State, id: IntentId) returns (w: Worker)
    requires ClaimInv(h, s) && Next(h, s, s') && id in s.t.intents && id in s'.t.intents
    requires s.t.intents[id].phase == Accepted && s'.t.intents[id].phase == Released
    ensures At(s, w).InsertIntent? && id in At(s, w).retired
  {
    w :| Step(h, s, s', w);
    if ClaimStep(h, s, s', w) { ClaimStepIsQuiet(h, s, s', w); }
    else if x, token, began, required :| CommitClaim(s, s', w, x, token, began, required) {}
    else if QuietStep(s, s', w) { QuietStepEffect(s, s', w); NotByOneRow(s, s', w, id); }
    else if RowStep(s, s', w) { RowStepEffect(s, s', w); NotByOneRow(s, s', w, id); }
    else if WorldStep(s, s') { WorldEffect(s, s', w); NotByOneRow(s, s', w, id); }
  }

  lemma NotByOneRow(s: State, s': State, w: Worker, id: IntentId)
    requires Bookkeeping.Keyed(s.t) && RowEffect(s, s', w) && id in s.t.intents && id in s'.t.intents
    requires s.t.intents[id].phase == Accepted
    ensures s'.t.intents[id].phase == Accepted
  {
    if !NoRow(s, s') { var x, m :| OneRow(s, s', x, m); }
  }

  /**
    A slot is freed only on explicit evidence. Over every step of every run, a live intent
    that becomes released was an open one without a running lease, let go by the operator; or
    a settled receipt that a committing claim of its scope or request had seen, in some earlier
    state, with its download removed or failed, or imported while another release was asked for.
   */
  lemma SlotFreedOnEvidence(h: LockIds, run: seq<State>, k: nat, id: IntentId) returns (w: Worker, i: nat)
    requires Run(h, run) && 0 < k < |run| && id in run[k - 1].t.intents && run[k - 1].t.intents[id].phase != Released
    requires id in run[k].t.intents && run[k].t.intents[id].phase == Released
    ensures var a := run[k - 1].t.intents[id];
      || ((a.phase == Submitting || a.phase == Uncertain)
          && (a.leaseExpires.Some? ==> a.leaseExpires.value < run[k - 1].clock))
      || (a.phase == Accepted && (!a.bookkeepingRequired || a.bookkeepingAt.Some?)
          && i < k && At(run[k - 1], w).InsertIntent?
          && var c, key := At(run[k - 1], w).c, DownloadKey(a.request.client, a.externalId);
             && (a.request.scopeKey == c.scopeKey || a.request.requestKey == c.requestKey)
             && key in run[i].t.downloads
             && (run[i].t.downloads[key].state == "removed" || run[i].t.downloads[key].failedAt.Some?
                 || (run[i].t.downloads[key].importStatus == "imported"
                     && a.request.scopeKey == c.scopeKey && a.request.requestKey != c.requestKey)))
  {
    w, i := 0, 0;
    RowChangesLawfully(h, run, k, id);
    if run[k - 1].t.intents[id].phase == Accepted {
      RunKeepsClaimInv(h, run, k - 1);
      RunNext(h, run, k);
      w := ReleasedByCommit(h, run[k - 1], run[k], id);
      RunRetiresShown(h, run, k - 1, w);
      i :| i <= k - 1 && ShownAt(run, At(run[k - 1], w).c, id, i);
      RowsSettle(h, run, i, k - 1, id);
    }
  }
}
