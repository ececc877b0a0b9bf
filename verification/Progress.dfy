/**
  What a claim leaves behind: locks end with the claim that took them, whether it commits, gives
  up or dies, and a claim nobody competes with always comes to its end. Also what the operator
  can always do, and when intents were created.
 */
module Progress {
  import opened Text
  import opened Records
  import opened Statements
  import opened Protocol
  import opened ClaimSafety
  import opened Histories
  import opened Runs
  import Bookkeeping

  // ---- locks ----

  /** Every lock is held by a worker in the midst of a claim. */
  ghost predicate LocksBelong(s: State) {
    && (forall l :: l in s.locks ==> InClaim(At(s, s.locks[l])))
    && (forall id :: id in s.rowLocks ==> InClaim(At(s, s.rowLocks[id])))
  }

  /** A claim's statement that goes on within the claim takes locks for its own worker only. */
  ghost predicate TakesOwn(s: State, s': State, w: Worker) {
    && InClaim(At(s', w)) && (forall v :: v != w ==> At(s', v) == At(s, v))
    && (forall l :: l in s'.locks ==> s'.locks[l] == w || (l in s.locks && s'.locks[l] == s.locks[l]))
    && (forall id :: id in s'.rowLocks ==>
          s'.rowLocks[id] == w || (id in s.rowLocks && s'.rowLocks[id] == s.rowLocks[id]))
  }

  /** A claim that ends, or a worker that dies, drops its locks and touches no others. */
  ghost predicate DropsOwn(s: State, s': State, w: Worker) {
    && (forall v :: v != w ==> At(s', v) == At(s, v))
    && (forall l :: l in s'.locks ==> l in s.locks && s'.locks[l] == s.locks[l] && s'.locks[l] != w)
    && (forall id :: id in s'.rowLocks ==>
          id in s.rowLocks && s'.rowLocks[id] == s.rowLocks[id] && s'.rowLocks[id] != w)
  }

  lemma TakesKeeps(s: State, s': State, w: Worker)
    requires LocksBelong(s) && TakesOwn(s, s', w)
    ensures LocksBelong(s')
  {}

  lemma DropsKeeps(s: State, s': State, w: Worker)
    requires LocksBelong(s) && DropsOwn(s, s', w)
    ensures LocksBelong(s')
  {}

  lemma EndDrops(s: State, s1: State, w: Worker, pc: Pc)
    requires s1.locks == EndTx(s, w).locks && s1.rowLocks == EndTx(s, w).rowLocks && s1.workers == s.workers
    ensures DropsOwn(s, Go(s1, w, pc), w)
  {}

  ghost predicate TakesOrDrops(s: State, s': State, w: Worker) {
    TakesOwn(s, s', w) || DropsOwn(s, s', w)
  }

  lemma LockSteps(h: LockIds, s: State, s': State, w: Worker)
    requires TakeRequestLock(h, s, s', w) || TakeScopeLock(h, s, s', w) || SelectNone(s, s', w)
    ensures TakesOrDrops(s, s', w)
  {
    assert TakesOwn(s, s', w);
  }

  lemma SelectLocks(s: State, s': State, w: Worker, id: IntentId)
    requires SelectExisting(s, s', w, id)
    ensures TakesOrDrops(s, s', w)
  {
    if s.t.intents[id].phase.Accepted? { assert TakesOwn(s, s', w); }
    else { EndDrops(s, EndTx(s, w), w, At(s', w)); }
  }

  lemma GoTakes(s: State, w: Worker, pc: Pc)
    requires InClaim(pc)
    ensures TakesOwn(s, Go(s, w, pc), w)
  {}

  lemma JudgeLocks(s: State, s': State, w: Worker)
    requires JudgeExisting(s, s', w)
    ensures TakesOrDrops(s, s', w)
  {
    var pc := At(s, w);
    var row := s.t.intents[pc.existing];
    GoTakes(s, w, RetireRequest(pc.c, {pc.existing}));
    EndDrops(s, EndTx(s, w), w, AfterExisting(row, pc.c));
  }

  lemma RetireLocks(s: State, s': State, w: Worker)
    requires RetireByRequest(s, s', w)
    ensures TakesOrDrops(s, s', w)
  {
    assert TakesOwn(s, s', w);
  }

  lemma OtherLocks(s: State, s': State, w: Worker)
    requires CheckOtherRequest(s, s', w)
    ensures TakesOrDrops(s, s', w)
  {
    GoTakes(s, w, Protocol.CheckBook(At(s, w).c, At(s, w).retired));
    EndDrops(s, EndTx(s, w), w, Idle);
  }

  lemma ActiveLocks(s: State, s': State, w: Worker)
    requires CheckNoActive(s, s', w)
    ensures TakesOrDrops(s, s', w)
  {
    GoTakes(s, w, LoadRelease(At(s, w).c, At(s, w).retired));
    EndDrops(s, EndTx(s, w), w, Idle);
  }

  lemma BookLocks(s: State, s': State, w: Worker)
    requires CheckEligible(s, s', w)
    ensures TakesOrDrops(s, s', w)
  {
    if InClaim(At(s', w)) { assert TakesOwn(s, s', w); } else { EndDrops(s, EndTx(s, w), w, Idle); }
  }

  lemma ReleaseLocks(s: State, s': State, w: Worker)
    requires LoadSelected(s, s', w)
    ensures TakesOrDrops(s, s', w)
  {
    if InClaim(At(s', w)) { assert TakesOwn(s, s', w); } else { EndDrops(s, EndTx(s, w), w, Idle); }
  }

  lemma ClaimLocks(h: LockIds, s: State, s': State, w: Worker)
    requires ClaimStep(h, s, s', w)
    ensures TakesOrDrops(s, s', w)
  {
    if TakeRequestLock(h, s, s', w) || TakeScopeLock(h, s, s', w) || SelectNone(s, s', w) { LockSteps(h, s, s', w); }
    else if id :| SelectExisting(s, s', w, id) { SelectLocks(s, s', w, id); }
    else if JudgeExisting(s, s', w) { JudgeLocks(s, s', w); }
    else if RetireByRequest(s, s', w) { RetireLocks(s, s', w); }
    else if CheckOtherRequest(s, s', w) { OtherLocks(s, s', w); }
    else if CheckNoActive(s, s', w) { ActiveLocks(s, s', w); }
    else if CheckEligible(s, s', w) { BookLocks(s, s', w); }
    else { ReleaseLocks(s, s', w); }
  }

  lemma CommitLocks(s: State, s': State, w: Worker, id: IntentId, token: Token, began: Time, required: bool)
    requires CommitClaim(s, s', w, id, token, began, required)
    ensures DropsOwn(s, s', w)
  {}

  lemma EffectKeepsLocks(s: State, s': State, w: Worker)
    requires LocksBelong(s) && RowEffect(s, s', w)
    ensures LocksBelong(s')
  {
    assert forall v :: InClaim(At(s, v)) ==> At(s', v) == At(s, v);
  }

  lemma StepKeepsLocks(h: LockIds, s: State, s': State, w: Worker)
    requires Bookkeeping.Keyed(s.t) && LocksBelong(s) && Step(h, s, s', w)
    ensures LocksBelong(s')
  {
    if ClaimStep(h, s, s', w) {
      ClaimLocks(h, s, s', w);
      if TakesOwn(s, s', w) { TakesKeeps(s, s', w); } else { DropsKeeps(s, s', w); }
    }
    else if id, token, began, required :| CommitClaim(s, s', w, id, token, began, required) {
      CommitLocks(s, s', w, id, token, began, required);
      DropsKeeps(s, s', w);
    }
    else if QuietStep(s, s', w) { QuietStepEffect(s, s', w); EffectKeepsLocks(s, s', w); }
    else if RowStep(s, s', w) { RowStepEffect(s, s', w); EffectKeepsLocks(s, s', w); }
    else if WorldStep(s, s') { WorldEffect(s, s', w); EffectKeepsLocks(s, s', w); }
    else { EndDrops(s, EndTx(s, w), w, Idle); DropsKeeps(s, s', w); }
  }

  /**
    Locks end with their claim: in every state of every run an advisory lock or a row lock is
    held by a worker in the midst of a claim. A claim that committed, gave up or died holds none.
   */
  lemma {:induction false} LocksEndWithTheirClaim(h: LockIds, run: seq<State>, k: nat)
    requires Run(h, run) && k < |run|
    ensures forall l :: l in run[k].locks ==> InClaim(At(run[k], run[k].locks[l]))
    ensures forall id :: id in run[k].rowLocks ==> InClaim(At(run[k], run[k].rowLocks[id]))
  {
    if k > 0 {
      LocksEndWithTheirClaim(h, run, k - 1);
      RunKeepsClaimInv(h, run, k - 1);
      RunNext(h, run, k);
      var w :| Step(h, run[k - 1], run[k], w);
      StepKeepsLocks(h, run[k - 1], run[k], w);
    }
  }

  // ---- a claim alone ----

  /** The statements a claim still has before it at most. */
  function Left(pc: Pc): nat {
    match pc
    case AskRequestLock(_) => 10
    case AskScopeLock(_) => 9
    case SelectScope(_) => 8
    case JudgeScope(_, _) => 7
    case RetireRequest(_, _) => 6
    case CheckRequest(_, _) => 5
    case CheckBook(_, _) => 4
    case CheckActive(_, _) => 3
    case LoadRelease(_, _) => 2
    case InsertIntent(_, _) => 1
    case _ => 0
  }

  /** Nobody else is in a claim. */
  ghost predicate Alone(s: State, w: Worker) {
    forall v :: v != w ==> !InClaim(At(s, v))
  }

  ghost predicate Advances(s: State, s': State, w: Worker) {
    Left(At(s', w)) < Left(At(s, w)) && forall v :: v != w ==> At(s', v) == At(s, v)
  }

  lemma LocksAreOwn(s: State, w: Worker)
    requires LocksBelong(s) && Alone(s, w)
    ensures forall l :: l in s.locks ==> s.locks[l] == w
    ensures forall id :: id in s.rowLocks ==> s.rowLocks[id] == w
  {
    forall l | l in s.locks ensures s.locks[l] == w { assert InClaim(At(s, s.locks[l])); }
    forall id | id in s.rowLocks ensures s.rowLocks[id] == w { assert InClaim(At(s, s.rowLocks[id])); }
  }

  lemma TakesFirst(h: LockIds, s: State, w: Worker) returns (s': State)
    requires LocksBelong(s) && Alone(s, w) && At(s, w).AskRequestLock?
    ensures ClaimStep(h, s, s', w) && Advances(s, s', w)
  {
    var c := At(s, w).c;
    LocksAreOwn(s, w);
    assert At(s, w) == AskRequestLock(c);
    var l := h.request(c.requestKey);
    assert l !in s.locks;
    s' := Go(s.(locks := s.locks[l := w]), w, AskScopeLock(c));
    assert TakeRequestLock(h, s, s', w);
  }

  lemma TakesScope(h: LockIds, s: State, w: Worker) returns (s': State)
    requires LocksBelong(s) && Alone(s, w) && At(s, w).AskScopeLock?
    ensures ClaimStep(h, s, s', w) && Advances(s, s', w)
  {
    var c := At(s, w).c;
    LocksAreOwn(s, w);
    assert At(s, w) == AskScopeLock(c);
    var l := h.scope(c.scopeKey);
    assert l in s.locks ==> s.locks[l] == w;
    s' := Go(s.(locks := s.locks[l := w]), w, SelectScope(c));
    assert TakeScopeLock(h, s, s', w);
  }

  lemma SelectsRow(h: LockIds, s: State, w: Worker, id: IntentId) returns (s': State)
    requires At(s, w).SelectScope? && LiveInScope(s, id, At(s, w).c.scopeKey) && Grabbable(s, id, w)
    ensures ClaimStep(h, s, s', w) && Advances(s, s', w)
  {
    var c, row := At(s, w).c, s.t.intents[id];
    if row.phase.Accepted? { s' := Go(s.(rowLocks := s.rowLocks[id := w]), w, Protocol.JudgeScope(c, id)); }
    else { s' := Go(EndTx(s, w), w, AfterExisting(row, c)); }
    assert SelectExisting(s, s', w, id);
  }

  lemma Selects(h: LockIds, s: State, w: Worker) returns (s': State)
    requires LocksBelong(s) && Alone(s, w) && At(s, w).SelectScope?
    ensures ClaimStep(h, s, s', w) && Advances(s, s', w)
  {
    LocksAreOwn(s, w);
    var c := At(s, w).c;
    if id :| LiveInScope(s, id, c.scopeKey) {
      s' := SelectsRow(h, s, w, id);
    } else {
      s' := Go(s, w, RetireRequest(c, {}));
      assert SelectNone(s, s', w);
    }
  }

  lemma Judges(h: LockIds, s: State, w: Worker) returns (s': State)
    requires ClaimInv(h, s) && At(s, w).JudgeScope?
    ensures ClaimStep(h, s, s', w) && Advances(s, s', w)
  {
    var pc := At(s, w);
    assert Knows(h, s, w) && pc.existing in Holding(pc) && HeldRow(s, w, pc.existing);
    var row := s.t.intents[pc.existing];
    s' := if FreesScope(s.t, row, pc.c.requestKey) && row.Settled() then Go(s, w, RetireRequest(pc.c, {pc.existing}))
      else Go(EndTx(s, w), w, AfterExisting(row, pc.c));
    assert JudgeExisting(s, s', w);
  }

  lemma RetiresThese(s: State, s': State, w: Worker)
    requires At(s, w).RetireRequest? && forall id :: Grabbable(s, id, w)
    requires var pc, more := At(s, w), Retirable(s, At(s, w).c.requestKey);
      s' == Go(s.(rowLocks := s.rowLocks + (map id | id in more :: w)), w, CheckRequest(pc.c, pc.retired + more))
    ensures RetireByRequest(s, s', w)
  {}

  lemma RetiringAdvances(h: LockIds, s: State, s': State, w: Worker)
    requires RetireByRequest(s, s', w)
    ensures ClaimStep(h, s, s', w) && Advances(s, s', w)
  {}

  lemma Retires(h: LockIds, s: State, w: Worker) returns (s': State)
    requires LocksBelong(s) && Alone(s, w) && At(s, w).RetireRequest?
    ensures ClaimStep(h, s, s', w) && Advances(s, s', w)
  {
    var pc, more := At(s, w), Retirable(s, At(s, w).c.requestKey);
    LocksAreOwn(s, w);
    s' := Go(s.(rowLocks := s.rowLocks + (map id | id in more :: w)), w, CheckRequest(pc.c, pc.retired + more));
    RetiresThese(s, s', w);
    RetiringAdvances(h, s, s', w);
  }

  lemma ChecksOther(h: LockIds, s: State, w: Worker) returns (s': State)
    requires At(s, w).CheckRequest?
    ensures ClaimStep(h, s, s', w) && Advances(s, s', w)
  {
    var pc := At(s, w);
    s' := if OtherRequest(s, pc.c, pc.retired) then Go(EndTx(s, w), w, Idle)
      else Go(s, w, Protocol.CheckBook(pc.c, pc.retired));
    assert CheckOtherRequest(s, s', w);
  }

  lemma ChecksBook(h: LockIds, s: State, w: Worker) returns (s': State)
    requires At(s, w).CheckBook?
    ensures ClaimStep(h, s, s', w) && Advances(s, s', w)
  {
    var pc := At(s, w);
    var next := AfterBook(s.t, pc.c, pc.retired);
    s' := Go(if next.Idle? then EndTx(s, w) else s, w, next);
    assert CheckEligible(s, s', w);
  }

  lemma ChecksDownloads(h: LockIds, s: State, w: Worker) returns (s': State)
    requires At(s, w).CheckActive?
    ensures ClaimStep(h, s, s', w) && Advances(s, s', w)
  {
    var pc := At(s, w);
    s' := if BookActive(s.t, pc.c.wantedId) then Go(EndTx(s, w), w, Idle) else Go(s, w, LoadRelease(pc.c, pc.retired));
    assert CheckNoActive(s, s', w);
  }

  lemma LoadsRelease(h: LockIds, s: State, w: Worker) returns (s': State)
    requires At(s, w).LoadRelease?
    ensures ClaimStep(h, s, s', w) && Advances(s, s', w)
  {
    var pc := At(s, w);
    s' := if ReleaseKnown(s.t, pc.c) then Go(s, w, InsertIntent(WithRelease(s.t, pc.c), pc.retired))
      else Go(EndTx(s, w), w, Idle);
    assert LoadSelected(s, s', w);
  }

  lemma Inserts1(h: LockIds, s: State, w: Worker) returns (s': State)
    requires At(s, w).InsertIntent?
    ensures Step(h, s, s', w) && Advances(s, s', w)
  {
    var pc := At(s, w);
    var id := Above(s.t.intents.Keys);
    var token := Above(s.issued);
    var row := NewIntent(pc.c, id, token, s.clock, s.clock, true);
    s' := Go(EndTx(s, w).(t := s.t.(intents := Commit(s.t.intents, pc.retired, row)),
                          issued := s.issued + {token}, claims := s.claims[id := [s.clock]]),
             w, Send(row));
    assert CommitClaim(s, s', w, id, token, s.clock, true);
  }

  lemma ClaimAdvances(h: LockIds, s: State, w: Worker) returns (s': State)
    requires ClaimInv(h, s) && LocksBelong(s) && Alone(s, w) && Claiming(At(s, w))
    ensures Step(h, s, s', w) && Advances(s, s', w)
  {
    match At(s, w)
    case AskRequestLock(_) => s' := TakesFirst(h, s, w);
    case AskScopeLock(_) => s' := TakesScope(h, s, w);
    case SelectScope(_) => s' := Selects(h, s, w);
    case JudgeScope(_, _) => s' := Judges(h, s, w);
    case RetireRequest(_, _) => s' := Retires(h, s, w);
    case CheckRequest(_, _) => s' := ChecksOther(h, s, w);
    case CheckBook(_, _) => s' := ChecksBook(h, s, w);
    case CheckActive(_, _) => s' := ChecksDownloads(h, s, w);
    case LoadRelease(_, _) => s' := LoadsRelease(h, s, w);
    case InsertIntent(_, _) => s' := Inserts1(h, s, w);
  }

  lemma OneMore(h: LockIds, run: seq<State>, w: Worker) returns (s': State)
    requires Run(h, run) && Alone(run[|run| - 1], w) && Claiming(At(run[|run| - 1], w))
    ensures Run(h, run + [s']) && (run + [s'])[|run + [s']| - 1] == s'
    ensures Advances(run[|run| - 1], s', w) && Alone(s', w)
  {
    LocksEndWithTheirClaim(h, run, |run| - 1);
    RunKeepsClaimInv(h, run, |run| - 1);
    s' := ClaimAdvances(h, run[|run| - 1], w);
    RunGrows(h, run, s');
  }

  /**
    A claim ends: from any state of any run in which nobody else is in a claim, the worker's own
    statements, ten at most, bring it to its commit or out of the claim, and no lock is left.
   */
  lemma {:induction false} ClaimEnds(h: LockIds, run: seq<State>, w: Worker) returns (more: seq<State>)
    requires Run(h, run) && Alone(run[|run| - 1], w)
    ensures Run(h, run + more) && |more| <= Left(At(run[|run| - 1], w)) <= 10
    ensures var last := (run + more)[|run + more| - 1];
      !Claiming(At(last, w)) && last.locks == map[] && last.rowLocks == map[]
    decreases Left(At(run[|run| - 1], w))
  {
    if Claiming(At(run[|run| - 1], w)) {
      var s' := OneMore(h, run, w);
      var rest := ClaimEnds(h, run + [s'], w);
      more := [s'] + rest;
      assert run + more == run + [s'] + rest;
    } else {
      more := [];
      assert run + more == run;
      LocksEndWithTheirClaim(h, run, |run| - 1);
      NoLocksLeft(run[|run| - 1], w);
    }
  }

  lemma NoLocksLeft(s: State, w: Worker)
    requires LocksBelong(s) && Alone(s, w) && !Claiming(At(s, w))
    ensures s.locks == map[] && s.rowLocks == map[]
  {
    assert forall l :: l !in s.locks;
    assert forall id :: id !in s.rowLocks;
  }

  // ---- the operator ----

  lemma ReleasingIsAStep(h: LockIds, s: State, s': State, id: IntentId)
    requires OperatorRelease(s, s', id)
    ensures Next(h, s, s')
  {
    assert RowStep(s, s', 0);
    assert Step(h, s, s', 0);
  }

  lemma LetsGo(s: State, id: IntentId) returns (s': State)
    requires Bookkeeping.Keyed(s.t) && id in s.t.intents && id !in s.rowLocks
    requires s.t.intents[id].phase == Submitting || s.t.intents[id].phase == Uncertain
    requires s.t.intents[id].leaseExpires.Some? ==> s.t.intents[id].leaseExpires.value < s.clock
    ensures OperatorRelease(s, s', id)
    ensures s'.t == s.t.(intents := s.t.intents[id :=
      s.t.intents[id].(phase := Released, leaseToken := None, leaseExpires := None)])
  {
    s' := SetRow(s, OperatorReleased(s.t.intents[id]));
  }

  /** The operator can let any open row go whose lease is over and that no claim has locked. */
  lemma OperatorCanRelease(h: LockIds, run: seq<State>, s: State, id: IntentId) returns (s': State)
    requires Run(h, run) && s == run[|run| - 1] && id in s.t.intents && id !in s.rowLocks
    requires s.t.intents[id].phase == Submitting || s.t.intents[id].phase == Uncertain
    requires s.t.intents[id].leaseExpires.Some? ==> s.t.intents[id].leaseExpires.value < s.clock
    ensures Run(h, run + [s'])
    ensures s'.t == s.t.(intents := s.t.intents[id :=
      s.t.intents[id].(phase := Released, leaseToken := None, leaseExpires := None)])
  {
    RunKeepsClaimInv(h, run, |run| - 1);
    s' := LetsGo(s, id);
    ReleasingIsAStep(h, s, s', id);
    RunGrows(h, run, s');
  }

  // ---- creation times ----

  /** No intent was created in the future, and no creation time ever changes. */
  lemma {:induction false} CreatedInThePast(h: LockIds, run: seq<State>, k: nat, id: IntentId)
    requires Run(h, run) && k < |run| && id in run[k].t.intents
    ensures run[k].t.intents[id].createdAt <= run[k].clock
    ensures k > 0 && id in run[k - 1].t.intents ==>
      run[k].t.intents[id].createdAt == run[k - 1].t.intents[id].createdAt
  {
    if k > 0 {
      RunDigest(h, run, k);
      DigestEvolves(run[k - 1], run[k]);
      if id in run[k - 1].t.intents { CreatedInThePast(h, run, k - 1, id); }
    }
  }
}
