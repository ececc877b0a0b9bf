/**
  What whole runs keep: receipts are written once and never change, bookkeeping is
  recorded exactly once, replaced lease tokens stay dead, and recovery attempts are paced.
 */
module Histories {
  import opened Text
  import opened Records
  import opened Statements
  import opened Protocol
  import opened ClaimSafety
  import Bookkeeping

  // ---- every step is quiet, moves one row, or commits a claim ----

  ghost predicate MovesOne(s: State, s': State) {
    exists id, m :: OneRow(s, s', id, m)
  }

  /** A committed claim: one new submitting row, and only settled receipts retired. */
  ghost predicate Inserts(s: State, s': State, id: IntentId) {
    && id !in s.t.intents && s'.t.intents.Keys == s.t.intents.Keys + {id}
    && (var r := s'.t.intents[id];
        r.leaseToken.Some? && r.leaseToken.value !in s.issued && s'.issued == s.issued + {r.leaseToken.value}
        && r.createdAt <= s.clock
        && r == NewIntent(r.request, id, r.leaseToken.value, r.createdAt, s.clock, r.bookkeepingRequired))
    && (forall x :: x in s.t.intents ==>
         (s'.t.intents[x] == s.t.intents[x]
          || (s.t.intents[x].phase.Accepted? && s.t.intents[x].Settled()
              && s'.t.intents[x] == s.t.intents[x].(phase := Released))))
    && s'.receipts == s.receipts && s'.t.history == s.t.history && s'.clock == s.clock
        && s'.claims == s.claims[id := [s.clock]]
  }

  ghost predicate Digest(s: State, s': State) {
    && Bookkeeping.Keyed(s.t) && s.clock <= s'.clock
    && (NoRow(s, s') || MovesOne(s, s') || exists id :: Inserts(s, s', id))
  }

  /** A claim's worker moved, and no row, history or other worker. */
  ghost predicate Still(s: State, s': State, w: Worker) {
    && Claiming(At(s, w)) && !At(s', w).Send? && !At(s', w).WriteRows? && (forall v :: v != w ==> At(s', v) == At(s, v))
    && s'.t == s.t && s'.clock == s.clock && s'.receipts == s.receipts && s'.issued == s.issued && s'.claims == s.claims
    && s'.adds == s.adds && s'.noted == s.noted
  }

  lemma EarlyStepsAreStill(h: LockIds, s: State, s': State, w: Worker)
    requires TakeRequestLock(h, s, s', w) || TakeScopeLock(h, s, s', w) || SelectNone(s, s', w)
    ensures Still(s, s', w)
  {}

  lemma SelectIsStill(s: State, s': State, w: Worker, id: IntentId)
    requires SelectExisting(s, s', w, id)
    ensures Still(s, s', w)
  {}

  lemma JudgeIsStill(s: State, s': State, w: Worker)
    requires JudgeExisting(s, s', w)
    ensures Still(s, s', w)
  {}

  lemma RequestChecksAreStill(s: State, s': State, w: Worker)
    requires RetireByRequest(s, s', w) || CheckOtherRequest(s, s', w)
    ensures Still(s, s', w)
  {}

  lemma EligibleIsStill(s: State, s': State, w: Worker)
    requires CheckEligible(s, s', w)
    ensures Still(s, s', w)
  {}

  lemma LateChecksAreStill(s: State, s': State, w: Worker)
    requires CheckNoActive(s, s', w) || LoadSelected(s, s', w)
    ensures Still(s, s', w)
  {}

  lemma ClaimStepIsQuiet(h: LockIds, s: State, s': State, w: Worker)
    requires ClaimStep(h, s, s', w)
    ensures Still(s, s', w)
  {
    if TakeRequestLock(h, s, s', w) || TakeScopeLock(h, s, s', w) || SelectNone(s, s', w) {
      EarlyStepsAreStill(h, s, s', w);
    }
    else if id :| SelectExisting(s, s', w, id) { SelectIsStill(s, s', w, id); }
    else if JudgeExisting(s, s', w) { JudgeIsStill(s, s', w); }
    else if RetireByRequest(s, s', w) || CheckOtherRequest(s, s', w) { RequestChecksAreStill(s, s', w); }
    else if CheckEligible(s, s', w) { EligibleIsStill(s, s', w); }
    else { LateChecksAreStill(s, s', w); }
  }

  lemma CommitDigest(h: LockIds, s: State, s': State, w: Worker, id: IntentId, token: Token, began: Time,
          required: bool)
    requires ClaimInv(h, s) && CommitClaim(s, s', w, id, token, began, required)
    ensures Inserts(s, s', id)
  {
    var pc := At(s, w);
    assert Knows(h, s, w);
    forall x | x in s.t.intents && x in pc.retired ensures s.t.intents[x].phase.Accepted? && s.t.intents[x].Settled() {
      assert x in Holding(pc) && HeldRow(s, w, x);
    }
  }

  lemma StepDigest(h: LockIds, s: State, s': State, w: Worker)
    requires ClaimInv(h, s) && Step(h, s, s', w)
    ensures Digest(s, s')
  {
    if ClaimStep(h, s, s', w) { ClaimStepIsQuiet(h, s, s', w); }
    else if id, token, began, required :| CommitClaim(s, s', w, id, token, began, required) {
      CommitDigest(h, s, s', w, id, token, began, required);
    }
    else if QuietStep(s, s', w) { QuietStepEffect(s, s', w); }
    else if RowStep(s, s', w) { RowStepEffect(s, s', w); }
    else if WorldStep(s, s') { WorldEffect(s, s', w); }
    else { assert Crash(s, s', w); }
  }

  lemma NextDigest(h: LockIds, s: State, s': State)
    requires ClaimInv(h, s) && Next(h, s, s')
    ensures Digest(s, s')
  {
    var w :| Step(h, s, s', w);
    StepDigest(h, s, s', w);
  }

  /** Every step of a run is quiet, moves one row in one of the five ways, or commits a claim. */
  lemma RunDigest(h: LockIds, run: seq<State>, k: nat)
    requires Run(h, run) && 0 < k < |run|
    ensures Digest(run[k - 1], run[k])
  {
    RunKeepsClaimInv(h, run, k - 1);
    RunNext(h, run, k);
    NextDigest(h, run[k - 1], run[k]);
  }

  /** Whatever step is taken, every row present before is present after and has changed in one of the allowed ways. */
  lemma DigestEvolves(s: State, s': State)
    requires Digest(s, s')
    ensures RowsEvolve(s, s')
  {
    if MovesOne(s, s') {
      var id, m :| OneRow(s, s', id, m);
      MoveEvolves(s, s.t.intents[id], m);
    }
  }

  ghost predicate RowsEvolve(s: State, s': State) {
    forall id :: id in s.t.intents ==> id in s'.t.intents && Evolves(s.t.intents[id], s'.t.intents[id])
  }

  // ---- the shape of rows and the histories ----

  ghost predicate ShapedRow(s: State, r: Intent) {
    && (r.phase.Open() ==> r.receipt.None? && r.bookkeepingAt.None?)
    && (r.phase.Accepted? ==> r.receipt.Some? && r.leaseToken.None?)
    && (r.phase.Released? ==> r.leaseToken.None? && (r.receipt.Some? ==> r.Settled()))
    && (r.receipt.None? ==> r.bookkeepingAt.None?)
    && (r.receipt.Some? ==> r.externalId == r.receipt.value.id)
    && (r.leaseToken.Some? ==> r.leaseToken.value in s.issued)
  }

  function Count<T(==)>(xs: seq<T>, x: T): nat {
    if xs == [] then 0 else (if xs[0] == x then 1 else 0) + Count(xs[1..], x)
  }

  lemma {:induction false} CountAppend<T>(xs: seq<T>, y: T, x: T)
    ensures Count(xs + [y], x) == Count(xs, x) + if y == x then 1 else 0
  {
    if xs == [] {
      assert xs + [y] == [y];
    } else {
      assert (xs + [y])[1..] == xs[1..] + [y];
      CountAppend(xs[1..], y, x);
    }
  }

  /** One entry in the acceptance log for each intent that has a receipt, none for the others. */
  ghost predicate LoggedOnce(s: State) {
    && (forall id :: id in s.t.intents ==> Count(s.receipts, id) == if s.t.intents[id].receipt.Some? then 1 else 0)
    && (forall id :: id !in s.t.intents ==> Count(s.receipts, id) == 0)
  }

  ghost predicate HistoryInv(s: State) {
    && (forall id :: id in s.t.intents ==> ShapedRow(s, s.t.intents[id]))
    && LoggedOnce(s)
    && Bookkeeping.ExactlyOnce(s.t)
  }

  lemma NoRowKeepsHistory(s: State, s': State)
    requires HistoryInv(s) && NoRow(s, s')
    ensures HistoryInv(s')
  {
    if s'.t.history != s.t.history {
      var kind :| s'.t.history == s.t.history + [OtherEvent(kind)];
      forall id ensures Bookkeeping.EventsFor(s'.t.history, id) == Bookkeeping.EventsFor(s.t.history, id) {
        Bookkeeping.EventsForAppend(s.t.history, OtherEvent(kind), id);
      }
    }
  }

  lemma MoveKeepsLog(s: State, s': State, id: IntentId, m: Move)
    requires Bookkeeping.Keyed(s.t) && HistoryInv(s) && OneRow(s, s', id, m)
    ensures LoggedOnce(s')
  {
    assert ShapedRow(s, s.t.intents[id]);
    forall x: IntentId ensures Count(s'.receipts, x) == Count(s.receipts, x) + if m.Accepts? && x == id then 1 else 0 {
      CountAppend(s.receipts, id, x);
    }
  }

  lemma MoveKeepsEvents(s: State, s': State, id: IntentId, m: Move)
    requires Bookkeeping.Keyed(s.t) && HistoryInv(s) && OneRow(s, s', id, m)
    ensures Bookkeeping.ExactlyOnce(s'.t)
  {
    var a := s.t.intents[id];
    var b := Moved(s, a, m);
    assert b.bookkeepingRequired == a.bookkeepingRequired && (m.Books? || b.bookkeepingAt == a.bookkeepingAt);
    forall x: IntentId
      ensures Bookkeeping.EventsFor(s'.t.history, x)
        == if x in s'.t.intents && s'.t.intents[x].bookkeepingRequired && s'.t.intents[x].bookkeepingAt.Some? then 1
            else 0
    {}
  }

  lemma MoveKeepsHistory(s: State, s': State, id: IntentId, m: Move)
    requires Bookkeeping.Keyed(s.t) && HistoryInv(s) && OneRow(s, s', id, m)
    ensures HistoryInv(s')
  {
    MoveKeepsLog(s, s', id, m);
    MoveKeepsEvents(s, s', id, m);
  }

  lemma InsertKeepsHistory(s: State, s': State, id: IntentId)
    requires HistoryInv(s) && Inserts(s, s', id)
    ensures HistoryInv(s')
  {
    forall x | x in s'.t.intents ensures ShapedRow(s', s'.t.intents[x]) {
      if x != id { assert ShapedRow(s, s.t.intents[x]); }
    }
    assert Bookkeeping.ExactlyOnce(s'.t);
  }

  lemma DigestKeepsHistory(s: State, s': State)
    requires HistoryInv(s) && Digest(s, s')
    ensures HistoryInv(s')
  {
    if NoRow(s, s') { NoRowKeepsHistory(s, s'); }
    else if id, m :| OneRow(s, s', id, m) { MoveKeepsHistory(s, s', id, m); }
    else { var id :| Inserts(s, s', id); InsertKeepsHistory(s, s', id); }
  }

  lemma {:induction false} RunKeepsHistory(h: LockIds, run: seq<State>, k: nat)
    requires Run(h, run) && k < |run|
    ensures HistoryInv(run[k])
  {
    if k > 0 {
      RunKeepsHistory(h, run, k - 1);
      RunDigest(h, run, k);
      DigestKeepsHistory(run[k - 1], run[k]);
    }
  }

  // ---- exactly-once bookkeeping ----

  /**
    In every reachable state: an intent's release_grabbed events number one when its
    bookkeeping is done (and was owed), none otherwise; and an intent that was accepted
    and later released has exactly one whenever it was owed.
   */
  lemma BookkeepingExactlyOnce(h: LockIds, run: seq<State>, k: nat, id: IntentId)
    requires Run(h, run) && k < |run| && id in run[k].t.intents
    ensures var r := run[k].t.intents[id];
      && Bookkeeping.EventsFor(run[k].t.history, id)
          == (if r.bookkeepingRequired && r.bookkeepingAt.Some? then 1 else 0)
      && (r.phase.Released? && r.receipt.Some? && r.bookkeepingRequired ==>
          Bookkeeping.EventsFor(run[k].t.history, id) == 1)
      && (r.receipt.None? ==> Bookkeeping.EventsFor(run[k].t.history, id) == 0)
  {
    RunKeepsHistory(h, run, k);
    assert ShapedRow(run[k], run[k].t.intents[id]);
  }

  // ---- write-once receipts ----

  /** What a row's past fixes about its future. */
  ghost predicate Settles(a: Intent, b: Intent) {
    && SameRecord(a, b)
    && (a.phase.Released? ==> b == a)
    && (a.phase.Accepted? ==>
        (b.phase.Accepted? || b.phase.Released?) && b.receipt == a.receipt && b.externalId == a.externalId)
    && (a.bookkeepingAt.Some? ==> b.bookkeepingAt == a.bookkeepingAt)
    && (a.receipt.Some? ==> b.receipt == a.receipt)
  }

  /** Over any step of a run a row is still there and has changed in one of the listed ways or not at all. */
  lemma RowEvolvesAt(h: LockIds, run: seq<State>, k: nat, id: IntentId)
    requires Run(h, run) && 0 < k < |run| && id in run[k - 1].t.intents
    ensures id in run[k].t.intents && Evolves(run[k - 1].t.intents[id], run[k].t.intents[id])
    ensures ShapedRow(run[k - 1], run[k - 1].t.intents[id])
  {
    RunKeepsHistory(h, run, k - 1);
    RunDigest(h, run, k);
    DigestEvolves(run[k - 1], run[k]);
  }

  lemma {:induction false} RowsSettle(h: LockIds, run: seq<State>, i: nat, j: nat, id: IntentId)
    requires Run(h, run) && i <= j < |run| && id in run[i].t.intents
    ensures id in run[j].t.intents && Settles(run[i].t.intents[id], run[j].t.intents[id])
    decreases j
  {
    if i < j {
      RowsSettle(h, run, i, j - 1, id);
      RowEvolvesAt(h, run, j, id);
    }
  }

  /**
    Released is absorbing and accepted leads only to released; at most one accept ever
    succeeds per intent, so from then on its external id and its receipt never change.
   */
  lemma ReceiptsWrittenOnce(h: LockIds, run: seq<State>, i: nat, j: nat, id: IntentId)
    requires Run(h, run) && i <= j < |run| && id in run[i].t.intents
    ensures id in run[j].t.intents && Count(run[j].receipts, id) <= 1
    ensures var a, b := run[i].t.intents[id], run[j].t.intents[id];
      && (a.phase.Released? ==> b == a)
      && (a.phase.Accepted? ==> b.phase.Accepted? || b.phase.Released?)
      && (Count(run[i].receipts, id) == 1 ==> b.receipt == a.receipt && b.externalId == a.externalId && b.receipt.Some?)
  {
    RowsSettle(h, run, i, j, id);
    RunKeepsHistory(h, run, i);
    RunKeepsHistory(h, run, j);
    assert ShapedRow(run[i], run[i].t.intents[id]) && ShapedRow(run[j], run[j].t.intents[id]);
  }

  /** An operator release can never touch an accepted receipt, in any state. */
  lemma OperatorNeverReleasesAReceipt(h: LockIds, run: seq<State>, k: nat, s': State, id: IntentId)
    requires Run(h, run) && k < |run| && OperatorRelease(run[k], s', id)
    ensures run[k].t.intents[id].receipt.None? && Count(run[k].receipts, id) == 0
    ensures forall x :: x in run[k].t.intents && run[k].t.intents[x].receipt.Some? ==>
        x in s'.t.intents && s'.t.intents[x] == run[k].t.intents[x]
  {
    RunKeepsHistory(h, run, k);
    RunKeepsClaimInv(h, run, k);
    assert ShapedRow(run[k], run[k].t.intents[id]);
  }

  // ---- lease fencing ----

  /** A token that was issued and is not the row's token now. */
  ghost predicate Dead(s: State, id: IntentId, token: Token) {
    token in s.issued && id in s.t.intents && s.t.intents[id].leaseToken != Some(token)
  }

  lemma {:induction false} DeadForever(h: LockIds, run: seq<State>, i: nat, j: nat, id: IntentId, token: Token)
    requires Run(h, run) && i <= j < |run| && Dead(run[i], id, token)
    ensures Dead(run[j], id, token)
    decreases j
  {
    if i < j {
      DeadForever(h, run, i, j - 1, id, token);
      RunDigest(h, run, j);
    }
  }

  /**
    Fencing: once a worker's token is not the row's token (a recovery claim replaced it,
    or a report or acceptance cleared it), no accept and no uncertain report by a worker
    still holding it changes any row, in any later state.
   */
  lemma ReplacedTokensAreFenced(h: LockIds, run: seq<State>, i: nat, j: nat, id: IntentId, token: Token, s': State,
          w: Worker, ok: bool)
    requires Run(h, run) && i <= j < |run| && Dead(run[i], id, token)
    requires At(run[j], w).SaveReceipt? || At(run[j], w).ReportUncertain?
    requires At(run[j], w).row.id == id && At(run[j], w).row.leaseToken == Some(token)
    requires AcceptStatement(run[j], s', w, ok) || UncertainStatement(run[j], s', w)
    ensures s'.t == run[j].t && s'.receipts == run[j].receipts
  {
    DeadForever(h, run, i, j, id, token);
  }

  /** A recovery claim kills the token before it, so the worker that held it can no longer write the row. */
  lemma RecoveryReplacesTheToken(s: State, s': State, w: Worker, issued: Token, earlier: Token)
    requires HistoryInv(s) && Bookkeeping.Keyed(s.t) && RecoverStatement(s, s', w, issued)
    requires At(s, w).id in s.t.intents && CanRecover(s.t.intents[At(s, w).id], s.clock)
    requires earlier in s.issued
    ensures Dead(s', At(s, w).id, earlier)
  {}

  // ---- pacing ----

  /** The least time between an intent's k-th claim and the next: its backoff, or the lease if nobody reported. */
  function Gap(k: Attempts): Time {
    if Backoff(k) < LEASE then Backoff(k) else LEASE
  }

  ghost predicate PacedRow(s: State, r: Intent, claims: seq<Time>) {
    && claims != [] && claims[|claims| - 1] <= s.clock
    && (forall k :: 0 <= k < |claims| - 1 ==> claims[k + 1] >= claims[k] + Gap(k + 1))
    && (r.phase.Open() ==>
         && r.attempts == |claims|
         && (r.leaseExpires == Some(claims[|claims| - 1] + LEASE)
             || (r.leaseExpires.None? && r.nextCheck.Some?
                 && r.nextCheck.value >= claims[|claims| - 1] + Backoff(r.attempts))))
  }

  ghost predicate PaceInv(s: State) {
    forall id :: id in s.t.intents ==> id in s.claims && PacedRow(s, s.t.intents[id], s.claims[id])
  }

  lemma RecoveryIsPaced(s: State, s': State, r: Intent, claims: seq<Time>, token: Token)
    requires PacedRow(s, r, claims) && CanRecover(r, s.clock) && s'.clock == s.clock
    ensures PacedRow(s', Recovered(r, token, s.clock), claims + [s.clock])
  {
    var n := |claims|;
    var more := claims + [s.clock];
    forall k | 0 <= k < |more| - 1 ensures more[k + 1] >= more[k] + Gap(k + 1) {
      if k < n - 1 { assert more[k] == claims[k] && more[k + 1] == claims[k + 1]; }
      else { assert more[k] == claims[n - 1] && more[k + 1] == s.clock; }
    }
  }

  lemma MoveKeepsPace(s: State, s': State, id: IntentId, m: Move)
    requires Bookkeeping.Keyed(s.t) && PaceInv(s) && OneRow(s, s', id, m)
    ensures PaceInv(s')
  {
    assert PacedRow(s, s.t.intents[id], s.claims[id]);
    if m.Recovers? {
      RecoveryIsPaced(s, s', s.t.intents[id], s.claims[id], m.token);
    }
    forall x | x in s'.t.intents ensures x in s'.claims && PacedRow(s', s'.t.intents[x], s'.claims[x]) {
      assert PacedRow(s, s.t.intents[x], s.claims[x]);
    }
  }

  lemma QuietKeepsPace(s: State, s': State)
    requires PaceInv(s) && NoRow(s, s') && s.clock <= s'.clock
    ensures PaceInv(s')
  {
    forall x | x in s'.t.intents ensures PacedRow(s', s'.t.intents[x], s'.claims[x]) {
      assert PacedRow(s, s.t.intents[x], s.claims[x]);
    }
  }

  lemma InsertKeepsPace(s: State, s': State, id: IntentId)
    requires PaceInv(s) && Inserts(s, s', id)
    ensures PaceInv(s')
  {
    forall x | x in s'.t.intents ensures x in s'.claims && PacedRow(s', s'.t.intents[x], s'.claims[x]) {
      if x != id { assert PacedRow(s, s.t.intents[x], s.claims[x]); }
    }
  }

  lemma DigestKeepsPace(s: State, s': State)
    requires PaceInv(s) && Digest(s, s')
    ensures PaceInv(s')
  {
    if NoRow(s, s') { QuietKeepsPace(s, s'); }
    else if id, m :| OneRow(s, s', id, m) { MoveKeepsPace(s, s', id, m); }
    else { var id :| Inserts(s, s', id); InsertKeepsPace(s, s', id); }
  }

  lemma {:induction false} RunKeepsPace(h: LockIds, run: seq<State>, k: nat)
    requires Run(h, run) && k < |run|
    ensures PaceInv(run[k])
  {
    if k > 0 {
      RunKeepsPace(h, run, k - 1);
      RunDigest(h, run, k);
      DigestKeepsPace(run[k - 1], run[k]);
    }
  }

  /** The sum of the gaps from the m-th claim to the n-th. */
  function Span(m: nat, n: nat): Time
    requires m <= n
    decreases n
  {
    if m == n then 0 else Span(m, n - 1) + Gap(n)
  }

  lemma {:induction false} GapsAdd(claims: seq<Time>, m: nat, n: nat)
    requires m <= n < |claims| && forall k :: 0 <= k < |claims| - 1 ==> claims[k + 1] >= claims[k] + Gap(k + 1)
    ensures claims[n] - claims[m] >= Span(m, n)
    decreases n
  {
    if m < n {
      GapsAdd(claims, m, n - 1);
      assert claims[n - 1 + 1] >= claims[n - 1] + Gap(n);
    }
  }

  /**
    Pacing: in every run any stretch of an intent's claims, the first one and then its
    recoveries, takes at least the sum of min(120 s, backoff(k)) over the attempts in
    it, whether the workers in between reported uncertain or died holding the lease.
   */
  lemma RecoveriesArePaced(h: LockIds, run: seq<State>, j: nat, id: IntentId, m: nat, n: nat)
    requires Run(h, run) && j < |run| && id in run[j].t.intents && m <= n
    ensures id in run[j].claims
    ensures n < |run[j].claims[id]| ==> run[j].claims[id][n] - run[j].claims[id][m] >= Span(m, n)
    ensures run[j].t.intents[id].phase.Open() ==> run[j].t.intents[id].attempts == |run[j].claims[id]|
  {
    RunKeepsPace(h, run, j);
    assert PacedRow(run[j], run[j].t.intents[id], run[j].claims[id]);
    if n < |run[j].claims[id]| { GapsAdd(run[j].claims[id], m, n); }
  }
}
