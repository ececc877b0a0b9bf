/**
  At-most-once submission: how often a run may call Add for one release request, for
  one book, and at all.
 */
module Sends {
  import opened Records
  import opened Protocol
  import opened ClaimSafety
  import opened CalmSteps
  import Histories
  import Bookkeeping

  /** A worker whose claim has committed and who has not called Add yet. */
  ghost predicate Sending(s: State, w: Worker, id: IntentId) {
    At(s, w).Send? && At(s, w).row.id == id
  }

  /** Each intent is either still owned by one sender, or was sent at most once; never both. */
  ghost predicate SendInv(s: State) {
    && (forall k :: 0 <= k < |s.adds| ==> s.adds[k] in s.t.intents)
    && (forall j, k :: 0 <= j < k < |s.adds| ==> s.adds[j] != s.adds[k])
    && (forall w :: At(s, w).Send? ==> At(s, w).row.id in s.t.intents && At(s, w).row.id !in s.adds)
    && (forall v, w :: v != w && At(s, v).Send? && At(s, w).Send? ==> At(s, v).row.id != At(s, w).row.id)
  }

  // ---- which steps send ----

  /** No Add happens and no worker becomes a sender. */
  ghost predicate NoSend(s: State, s': State) {
    && s'.adds == s.adds
    && (forall w :: At(s', w).Send? ==> At(s', w) == At(s, w))
    && (forall id :: id in s.t.intents ==> id in s'.t.intents)
  }

  /** One sender calls Add and stops being a sender. */
  ghost predicate OneSend(s: State, s': State, w: Worker) {
    && At(s, w).Send? && !At(s', w).Send?
    && s'.adds == s.adds + [At(s, w).row.id] && s'.t.intents == s.t.intents
    && (forall v :: v != w ==> At(s', v) == At(s, v))
  }

  /** A committed claim makes its worker the sender of the row it inserted. */
  ghost predicate NewSender(s: State, s': State, w: Worker, id: IntentId) {
    && id !in s.t.intents && s'.t.intents.Keys == s.t.intents.Keys + {id}
    && s'.adds == s.adds && Sending(s', w, id) && !At(s, w).Send?
    && (forall v :: v != w ==> At(s', v) == At(s, v))
  }

  lemma SendAddSends(s: State, s': State, w: Worker, reply: Reply)
    requires SendAdd(s, s', w, reply)
    ensures OneSend(s, s', w)
  {}

  lemma CommitMakesSender(s: State, s': State, w: Worker, id: IntentId, token: Token, began: Time, required: bool)
    requires CommitClaim(s, s', w, id, token, began, required)
    ensures NewSender(s, s', w, id)
  {}

  lemma LinkQuerySendsNothing(s: State, s': State, w: Worker, rows: seq<Intent>)
    requires LinkQuery(s, s', w, rows)
    ensures NoSend(s, s')
  {}

  lemma WriteSendsNothing(s: State, s': State, w: Worker)
    requires WriteRow(s, s', w)
    ensures NoSend(s, s')
  {
    assert At(s, w).rows != [] ==> SameBut(s, Written(s, At(s, w).rows[0])) by {
      if At(s, w).rows != [] { WrittenSameBut(s, At(s, w).rows[0]); }
    }
  }

  /**
    Reconciliation, replay, polls, lease expiry, releases and crashes never send: only a
    worker whose own claim committed does, once.
   */
  ghost predicate SendKind(s: State, s': State) {
    NoSend(s, s') || (exists w :: OneSend(s, s', w)) || (exists w, id :: NewSender(s, s', w, id))
  }

  lemma StepSends(h: LockIds, s: State, s': State, w: Worker)
    requires Bookkeeping.Keyed(s.t) && Step(h, s, s', w)
    ensures SendKind(s, s')
  {
    if reply :| SendAdd(s, s', w, reply) { SendAddSends(s, s', w, reply); }
    else if rows :| LinkQuery(s, s', w, rows) { LinkQuerySendsNothing(s, s', w, rows); }
    else if WriteRow(s, s', w) { WriteSendsNothing(s, s', w); }
    else {
      StepIsCalm(h, s, s', w);
      if id, token, began, required :| CommitClaim(s, s', w, id, token, began, required) {
        CommitMakesSender(s, s', w, id, token, began, required);
      }
    }
  }

  lemma NextSends(h: LockIds, s: State, s': State)
    requires Bookkeeping.Keyed(s.t) && Next(h, s, s')
    ensures SendKind(s, s')
  {
    var w :| Step(h, s, s', w);
    StepSends(h, s, s', w);
  }

  lemma RunSends(h: LockIds, run: seq<State>, k: nat)
    requires Run(h, run) && 0 < k < |run|
    ensures SendKind(run[k - 1], run[k])
  {
    RunKeepsClaimInv(h, run, k - 1);
    RunNext(h, run, k);
    NextSends(h, run[k - 1], run[k]);
  }

  lemma SendKindKeepsInv(s: State, s': State)
    requires SendInv(s) && SendKind(s, s')
    ensures SendInv(s')
  {
    if NoSend(s, s') {}
    else if w :| OneSend(s, s', w) {
      forall v | At(s', v).Send? ensures At(s', v).row.id !in s'.adds { assert v != w; }
    } else {
      var w, id :| NewSender(s, s', w, id);
      forall v | At(s', v).Send? && v != w ensures At(s', v).row.id != id { assert At(s, v).Send?; }
    }
  }

  lemma {:induction false} RunKeepsSendInv(h: LockIds, run: seq<State>, k: nat)
    requires Run(h, run) && k < |run|
    ensures SendInv(run[k])
  {
    if k > 0 {
      RunKeepsSendInv(h, run, k - 1);
      RunSends(h, run, k);
      SendKindKeepsInv(run[k - 1], run[k]);
    }
  }

  // ---- counting ----

  /** Add calls whose intent is in a set. */
  function AddsIn(adds: seq<IntentId>, ids: set<IntentId>): nat {
    if adds == [] then 0 else (if adds[0] in ids then 1 else 0) + AddsIn(adds[1..], ids)
  }

  lemma {:induction false} DistinctAddsFit(adds: seq<IntentId>, ids: set<IntentId>)
    requires forall j, k :: 0 <= j < k < |adds| ==> adds[j] != adds[k]
    ensures AddsIn(adds, ids) <= |ids|
  {
    if adds != [] {
      var rest := adds[1..];
      assert forall k :: 0 <= k < |rest| ==> rest[k] == adds[k + 1];
      if adds[0] in ids {
        DistinctAddsFit(rest, ids - {adds[0]});
        AddsInWithout(rest, ids, adds[0]);
      } else {
        DistinctAddsFit(rest, ids);
      }
    }
  }

  lemma {:induction false} AddsInWithout(adds: seq<IntentId>, ids: set<IntentId>, x: IntentId)
    requires x !in adds
    ensures AddsIn(adds, ids - {x}) == AddsIn(adds, ids)
  {
    if adds != [] {
      assert adds[0] != x;
      AddsInWithout(adds[1..], ids, x);
    }
  }

  function RequestIds(s: State, key: string): set<IntentId> {
    set id | id in s.t.intents && s.t.intents[id].request.requestKey == key
  }

  function ScopeIds(s: State, key: string): set<IntentId> {
    set id | id in s.t.intents && s.t.intents[id].request.scopeKey == key
  }

  function Released(s: State, ids: set<IntentId>): set<IntentId> {
    set id | id in ids && id in s.t.intents && s.t.intents[id].phase.Released?
  }

  lemma AtMostOneLeft(s: State, ids: set<IntentId>)
    requires forall a, b :: a in ids - Released(s, ids) && b in ids - Released(s, ids) ==> a == b
    ensures |ids| <= 1 + |Released(s, ids)|
  {
    var live := ids - Released(s, ids);
    if live == {} {
      assert ids <= Released(s, ids);
      assert ids == Released(s, ids);
    } else {
      var a :| a in live;
      assert live == {a};
      assert ids == Released(s, ids) + live;
      assert |ids| == |Released(s, ids)| + |live|;
    }
  }

  /**
    At-most-once submission. In every reachable state, however many workers raced,
    died, lost acknowledgements or retried, the Add calls made for one request key are
    at most one more than that key's released intents; and likewise for one scope, so
    for one book.
   */
  lemma AtMostOneSubmissionPerRelease(h: LockIds, run: seq<State>, k: nat, key: string)
    requires Run(h, run) && k < |run|
    ensures AddsIn(run[k].adds, RequestIds(run[k], key)) <= 1 + |Released(run[k], RequestIds(run[k], key))|
    ensures AddsIn(run[k].adds, ScopeIds(run[k], key)) <= 1 + |Released(run[k], ScopeIds(run[k], key))|
  {
    var s := run[k];
    RunKeepsSendInv(h, run, k);
    RunKeepsClaimInv(h, run, k);
    var byRequest, byScope := RequestIds(s, key), ScopeIds(s, key);
    DistinctAddsFit(s.adds, byRequest);
    DistinctAddsFit(s.adds, byScope);
    forall a, b | a in byRequest - Released(s, byRequest) && b in byRequest - Released(s, byRequest) ensures a == b {
      assert s.t.intents[a].Live() && s.t.intents[b].Live();
    }
    forall a, b | a in byScope - Released(s, byScope) && b in byScope - Released(s, byScope) ensures a == b {
      assert s.t.intents[a].Live() && s.t.intents[b].Live();
    }
    AtMostOneLeft(s, byRequest);
    AtMostOneLeft(s, byScope);
  }

  /** An intent is sent at most once, and only after it was inserted. */
  lemma EachIntentSentOnce(h: LockIds, run: seq<State>, k: nat, id: IntentId)
    requires Run(h, run) && k < |run|
    ensures AddsIn(run[k].adds, {id}) <= 1
    ensures id !in run[k].t.intents ==> id !in run[k].adds
  {
    RunKeepsSendInv(h, run, k);
    DistinctAddsFit(run[k].adds, {id});
  }

  // ---- the send budget ----

  /** Intents that may still be sent: the rows of workers waiting at Send. */
  function Pending(s: State): set<IntentId> {
    set w | w in s.workers && s.workers[w].Send? :: s.workers[w].row.id
  }

  ghost predicate Budget(s: State, s': State) {
    |s'.adds| + |Pending(s')| <= |s.adds| + |Pending(s)| + (|s'.t.intents| - |s.t.intents|)
  }

  lemma NoSendBudget(s: State, s': State)
    requires NoSend(s, s')
    ensures Budget(s, s')
  {
    assert Pending(s') <= Pending(s) by {
      forall id | id in Pending(s') ensures id in Pending(s) {
        var w :| w in s'.workers && s'.workers[w].Send? && s'.workers[w].row.id == id;
        assert At(s', w).Send?;
        assert w in s.workers;
      }
    }
    SubsetSize(Pending(s'), Pending(s));
    assert s.t.intents.Keys <= s'.t.intents.Keys;
    SubsetSize(s.t.intents.Keys, s'.t.intents.Keys);
  }

  lemma SubsetSize<T>(a: set<T>, b: set<T>)
    requires a <= b
    ensures |a| <= |b|
  {
    assert b == a + (b - a);
    assert |b| == |a| + |b - a|;
  }

  lemma OneSendBudget(s: State, s': State, w: Worker)
    requires SendInv(s) && OneSend(s, s', w)
    ensures Budget(s, s')
  {
    var id := At(s, w).row.id;
    assert id in Pending(s) by { assert w in s.workers; }
    assert Pending(s') <= Pending(s) - {id} by {
      forall x | x in Pending(s') ensures x in Pending(s) - {id} {
        var v :| v in s'.workers && s'.workers[v].Send? && s'.workers[v].row.id == x;
        assert v != w && At(s', v) == At(s, v) && v in s.workers;
      }
    }
    SubsetSize(Pending(s'), Pending(s) - {id});
  }

  lemma NewSenderBudget(s: State, s': State, w: Worker, id: IntentId)
    requires NewSender(s, s', w, id)
    ensures Budget(s, s')
  {
    assert Pending(s') <= Pending(s) + {id} by {
      forall x | x in Pending(s') ensures x in Pending(s) + {id} {
        var v :| v in s'.workers && s'.workers[v].Send? && s'.workers[v].row.id == x;
        if v != w { assert At(s', v) == At(s, v) && v in s.workers; }
      }
    }
    SubsetSize(Pending(s'), Pending(s) + {id});
    assert |s'.t.intents.Keys| == |s.t.intents.Keys| + 1;
  }

  lemma SendKindBudget(s: State, s': State)
    requires SendInv(s) && SendKind(s, s')
    ensures Budget(s, s')
  {
    if NoSend(s, s') { NoSendBudget(s, s'); }
    else if w :| OneSend(s, s', w) { OneSendBudget(s, s', w); }
    else { var w, id :| NewSender(s, s', w, id); NewSenderBudget(s, s', w, id); }
  }

  lemma BudgetAt(h: LockIds, run: seq<State>, k: nat)
    requires Run(h, run) && 0 < k < |run|
    ensures Budget(run[k - 1], run[k])
  {
    RunKeepsSendInv(h, run, k - 1);
    RunSends(h, run, k);
    SendKindBudget(run[k - 1], run[k]);
  }

  /**
    Over any stretch of a run, Add calls are bounded by the senders already waiting plus
    the intents inserted meanwhile. So a stretch of pure reconciliation, replay, polling,
    expiry and crashes, with nobody waiting to send, sends nothing.
   */
  lemma {:induction false} SendBudget(h: LockIds, run: seq<State>, i: nat, j: nat)
    requires Run(h, run) && i <= j < |run|
    ensures |run[j].adds| + |Pending(run[j])| <= |run[i].adds| + |Pending(run[i])|
        + (|run[j].t.intents| - |run[i].t.intents|)
    decreases j
  {
    if i < j {
      SendBudget(h, run, i, j - 1);
      BudgetAt(h, run, j);
    }
  }

  function LiveIds(s: State): set<IntentId> {
    set id | id in s.t.intents && s.t.intents[id].Live()
  }

  lemma DigestKeepsClaims(s: State, s': State)
    requires Histories.Digest(s, s') && s.claims.Keys == s.t.intents.Keys
    ensures s'.claims.Keys == s'.t.intents.Keys && s.t.intents.Keys <= s'.t.intents.Keys
  {
    if NoRow(s, s') {}
    else if id, m :| OneRow(s, s', id, m) {}
    else { var id :| Histories.Inserts(s, s', id); }
  }

  lemma {:induction false} EveryClaimIsAnIntent(h: LockIds, run: seq<State>, k: nat)
    requires Run(h, run) && k < |run|
    ensures run[k].claims.Keys == run[k].t.intents.Keys
  {
    if k > 0 {
      EveryClaimIsAnIntent(h, run, k - 1);
      Histories.RunDigest(h, run, k);
      DigestKeepsClaims(run[k - 1], run[k]);
    }
  }

  lemma LiveOrReleased(s: State)
    ensures |s.t.intents| == |Released(s, s.t.intents.Keys)| + |LiveIds(s)|
  {
    var released, live := Released(s, s.t.intents.Keys), LiveIds(s);
    assert s.t.intents.Keys == released + live;
    assert released !! live;
  }

  /**
    Claims ever committed are the live intents plus the released ones; none is lost, and
    none comes back from released.
   */
  lemma IntentsAreConserved(h: LockIds, run: seq<State>, i: nat, j: nat)
    requires Run(h, run) && i <= j < |run|
    ensures |run[j].claims| == |Released(run[j], run[j].t.intents.Keys)| + |LiveIds(run[j])|
    ensures run[i].t.intents.Keys <= run[j].t.intents.Keys
    ensures Released(run[i], run[i].t.intents.Keys) <= Released(run[j], run[j].t.intents.Keys)
  {
    EveryClaimIsAnIntent(h, run, j);
    LiveOrReleased(run[j]);
    assert |run[j].claims| == |run[j].claims.Keys| && |run[j].t.intents| == |run[j].t.intents.Keys|;
    forall id | id in run[i].t.intents
      ensures id in run[j].t.intents && (run[i].t.intents[id].phase.Released? ==> run[j].t.intents[id].phase.Released?)
    {
      Histories.ReceiptsWrittenOnce(h, run, i, j, id);
    }
  }
}
