/**
  The interleaved claim and the transaction agree: a claim of the machine that nobody
  interrupts commits, or gives up, exactly as SqlDownloadStore.ClaimAcquisition does.
 */
module ClaimAlone {
  import opened Records
  import opened Statements
  import opened Protocol
  import opened ClaimRules
  import opened ClaimSafety
  import Bookkeeping

  /** The scope's live row may be retired. */
  ghost predicate ScopeGoes(t: Tables, c: Candidate) {
    forall id :: id in t.intents && InScope(c, t.intents[id]) ==> Retires(t, c, t.intents[id])
  }

  function ScopeRows(t: Tables, c: Candidate): set<IntentId> {
    set id | id in t.intents && InScope(c, t.intents[id])
  }

  ghost predicate NothingBlocks(t: Tables, c: Candidate) {
    forall id :: id in t.intents ==> !Blocks(t, c, t.intents[id])
  }

  /** What a grab does next with the store's answer to a claim that did not commit. */
  function AfterAnswer(r: ClaimResult, c: Candidate): Pc {
    if r.Existing? then AfterExisting(r.row, c) else Idle
  }

  /** The worker goes on as the store's answer, some answer that explains the stop, tells it to. */
  ghost predicate Answered(t: Tables, c: Candidate, pc: Pc) {
    exists r :: Explains(t, c, r) && pc == AfterAnswer(r, c)
  }

  /** What a claim has established when it reaches each of its statements. */
  ghost predicate Stage(t: Tables, c: Candidate, pc: Pc) {
    match pc
    case AskRequestLock(d) => d == c
    case AskScopeLock(d) => d == c
    case SelectScope(d) => d == c
    case JudgeScope(d, x) => d == c && x in t.intents && InScope(c, t.intents[x]) && t.intents[x].phase.Accepted?
    case RetireRequest(d, retired) => d == c && ScopeGoes(t, c) && retired == ScopeRows(t, c)
    case CheckRequest(d, retired) => d == c && ScopeGoes(t, c) && retired == RetiredBy(t, c)
    case CheckBook(d, retired) => d == c && NothingBlocks(t, c) && retired == RetiredBy(t, c)
    case CheckActive(d, retired) =>
      && NothingBlocks(t, c) && retired == RetiredBy(t, c)
      && c.wantedId != "" && c.wantedId in t.wanted && Eligible(t.wanted[c.wantedId], c.selection.trigger)
      && d == WithFormat(t, c)
    case LoadRelease(d, retired) => NothingBlocks(t, c) && retired == RetiredBy(t, c) && BookOpen(t, c)
        && d == WithFormat(t, c)
    case InsertIntent(d, retired) => retired == RetiredBy(t, c) && Claimable(t, c) && d == Prepared(t, c)
    case _ => !Claimable(t, c) && Answered(t, c, pc)
  }

  ghost predicate Sound(s: State, c: Candidate, w: Worker) {
    Bookkeeping.Keyed(s.t) && LiveUnique(s.t.intents) && Stage(s.t, c, At(s, w))
  }

  /** The scope's row stands in the way: it is handed back, or the claim is refused. */
  lemma ScopeStops(t: Tables, c: Candidate, id: IntentId)
    requires id in t.intents && InScope(c, t.intents[id]) && !Retires(t, c, t.intents[id])
    ensures !Claimable(t, c) && Answered(t, c, AfterExisting(t.intents[id], c))
  {
    var row := t.intents[id];
    var r := if row.phase.Accepted? && row.request.requestKey != c.requestKey then Refused(AcquisitionActive)
        else Existing(row);
    assert Blocks(t, c, row);
    assert StopsFor(t, c, r) && Explains(t, c, r);
    assert AfterAnswer(r, c) == AfterExisting(row, c);
  }

  lemma RequestStops(t: Tables, c: Candidate, id: IntentId)
    requires id in t.intents && InRequest(c, t.intents[id]) && !Retires(t, c, t.intents[id]) && ScopeGoes(t, c)
    ensures !Claimable(t, c) && Answered(t, c, Idle)
  {
    assert Blocks(t, c, t.intents[id]);
    assert Explains(t, c, Refused(AcquisitionActive)) && AfterAnswer(Refused(AcquisitionActive), c) == Idle;
  }

  lemma ObjectionStops(t: Tables, c: Candidate)
    requires Objection(t, c).Some? && NothingBlocks(t, c)
    ensures !Claimable(t, c) && Answered(t, c, Idle)
  {
    var r := Refused(Objection(t, c).value);
    assert Explains(t, c, r) && AfterAnswer(r, c) == Idle;
  }

  lemma SelectStage(s: State, s': State, w: Worker, c: Candidate)
    requires Sound(s, c, w) && (SelectNone(s, s', w) || exists id :: SelectExisting(s, s', w, id))
    ensures s'.t == s.t && Sound(s', c, w)
  {
    if SelectNone(s, s', w) {
      assert forall id :: id in s.t.intents ==> !InScope(c, s.t.intents[id]) by {
        assert forall id :: id in s.t.intents && InScope(c, s.t.intents[id]) ==> LiveInScope(s, id, c.scopeKey);
      }
    } else {
      var id :| SelectExisting(s, s', w, id);
      if !s.t.intents[id].phase.Accepted? { ScopeStops(s.t, c, id); }
    }
  }

  lemma JudgeStage(s: State, s': State, w: Worker, c: Candidate)
    requires Sound(s, c, w) && JudgeExisting(s, s', w)
    ensures s'.t == s.t && Sound(s', c, w)
  {
    var x := At(s, w).existing;
    var row := s.t.intents[x];
    if FreesScope(s.t, row, c.requestKey) && row.Settled() {
      assert Retires(s.t, c, row);
      forall id | id in s.t.intents && InScope(c, s.t.intents[id]) ensures id == x {
        assert InScope(c, s.t.intents[x]);
      }
      assert ScopeRows(s.t, c) == {x};
    } else {
      ScopeStops(s.t, c, x);
    }
  }

  lemma RetireStage(s: State, s': State, w: Worker, c: Candidate)
    requires Sound(s, c, w) && RetireByRequest(s, s', w)
    ensures s'.t == s.t && Sound(s', c, w)
  {
    RetiredExactly(s.t, c, ScopeRows(s.t, c), Retirable(s, c.requestKey));
  }

  lemma RequestStage(s: State, s': State, w: Worker, c: Candidate)
    requires Sound(s, c, w) && CheckOtherRequest(s, s', w)
    ensures s'.t == s.t && Sound(s', c, w)
  {
    if OtherRequest(s, c, RetiredBy(s.t, c)) {
      var id :| id in s.t.intents && s.t.intents[id].Live() && id !in RetiredBy(s.t, c)
          && s.t.intents[id].request.requestKey == c.requestKey;
      RequestStops(s.t, c, id);
    }
  }

  lemma EligibleStage(s: State, s': State, w: Worker, c: Candidate)
    requires Sound(s, c, w) && CheckEligible(s, s', w)
    ensures s'.t == s.t && Sound(s', c, w)
  {
    if AfterBook(s.t, c, At(s, w).retired).Idle? { ObjectionStops(s.t, c); }
  }

  lemma ActiveStage(s: State, s': State, w: Worker, c: Candidate)
    requires Sound(s, c, w) && CheckNoActive(s, s', w)
    ensures s'.t == s.t && Sound(s', c, w)
  {
    if BookActive(s.t, c.wantedId) { ObjectionStops(s.t, c); }
  }

  lemma ReleaseStage(s: State, s': State, w: Worker, c: Candidate)
    requires Sound(s, c, w) && LoadSelected(s, s', w)
    ensures s'.t == s.t && Sound(s', c, w)
  {
    assert ReleaseKnown(s.t, WithFormat(s.t, c)) == ReleaseKnown(s.t, c);
    if !ReleaseKnown(s.t, c) { ObjectionStops(s.t, c); }
  }

  /**
    Every statement of a claim before its commit leaves the tables alone; if the claim
    stops there, it could not have been granted, and the worker goes on as the store's
    answer tells it to.
   */
  lemma StageKept(h: LockIds, s: State, s': State, w: Worker, c: Candidate)
    requires Sound(s, c, w) && ClaimStep(h, s, s', w)
    ensures s'.t == s.t && Sound(s', c, w)
    ensures !Claiming(At(s', w)) ==> !Claimable(s.t, c) && Answered(s.t, c, At(s', w))
  {
    if SelectNone(s, s', w) || exists id :: SelectExisting(s, s', w, id) {
      SelectStage(s, s', w, c);
    } else if JudgeExisting(s, s', w) {
      JudgeStage(s, s', w, c);
    } else if RetireByRequest(s, s', w) {
      RetireStage(s, s', w, c);
    } else if CheckOtherRequest(s, s', w) {
      RequestStage(s, s', w, c);
    } else if CheckEligible(s, s', w) {
      EligibleStage(s, s', w, c);
    } else if CheckNoActive(s, s', w) {
      ActiveStage(s, s', w, c);
    } else if LoadSelected(s, s', w) {
      ReleaseStage(s, s', w, c);
    }
  }

  /** A claim by one worker, nobody else moving, from its first lock to just before its commit. */
  ghost predicate Uninterrupted(h: LockIds, run: seq<State>, w: Worker, c: Candidate) {
    && run != [] && At(run[0], w) == AskRequestLock(c)
    && Bookkeeping.Keyed(run[0].t) && LiveUnique(run[0].t.intents)
    && forall k {:trigger ClaimStepAt(h, run, w, k)} :: 0 <= k < |run| - 1 ==> ClaimStepAt(h, run, w, k)
  }

  ghost predicate ClaimStepAt(h: LockIds, run: seq<State>, w: Worker, k: int)
    requires 0 <= k < |run| - 1
  {
    ClaimStep(h, run[k], run[k + 1], w)
  }

  lemma {:induction false} StagesOfRun(h: LockIds, run: seq<State>, w: Worker, c: Candidate)
    requires Uninterrupted(h, run, w, c)
    ensures run[|run| - 1].t == run[0].t && Sound(run[|run| - 1], c, w)
  {
    var n := |run| - 1;
    if n > 0 {
      var init := run[..n];
      forall k | 0 <= k < |init| - 1 ensures ClaimStepAt(h, init, w, k) { assert ClaimStepAt(h, run, w, k); }
      StagesOfRun(h, init, w, c);
      assert ClaimStepAt(h, run, w, n - 1);
      StageKept(h, run[n - 1], run[n], w, c);
    }
  }

  /**
    Interleaving aside, the machine's claim is the transaction: when it commits, the
    claim was grantable and the intents are exactly those ClaimAcquisition promises;
    when it stops without committing, it was not grantable, nothing changed, and the
    worker goes on as an answer of the store that explains the stop tells it to.
   */
  lemma AgreesWithTransaction(h: LockIds, run: seq<State>, s': State, w: Worker, c: Candidate,
                              id: IntentId, token: Token, began: Time, required: bool)
    requires Uninterrupted(h, run, w, c)
    ensures var s := run[|run| - 1]; CommitClaim(s, s', w, id, token, began, required) ==>
      && Claimable(run[0].t, c)
      && var row := NewIntent(Prepared(run[0].t, c), id, token, began, s.clock, required);
         s'.t == run[0].t.(intents := Commit(run[0].t.intents, RetiredBy(run[0].t, c), row)) && At(s', w) == Send(row)
    ensures !Claiming(At(run[|run| - 1], w)) ==>
      !Claimable(run[0].t, c) && run[|run| - 1].t == run[0].t && Answered(run[0].t, c, At(run[|run| - 1], w))
  {
    StagesOfRun(h, run, w, c);
  }
}
