/**
  What the locks of ClaimAcquisition buy: whatever runs in between, a claim's earlier
  reads stay true until its insert commits.
 */
module ClaimSafety {
  import opened Text
  import opened Records
  import opened Downloads
  import opened Statements
  import opened Protocol
  import Bookkeeping

  // ---- what a claim knows at each statement ----

  predicate InClaim(pc: Pc) {
    pc.AskScopeLock? || pc.SelectScope? || pc.JudgeScope? || pc.RetireRequest? || pc.CheckRequest? || pc.CheckBook?
    || pc.CheckActive? || pc.LoadRelease? || pc.InsertIntent?
  }

  /** In a claim, or waiting for its first lock. */
  predicate Claiming(pc: Pc) { pc.AskRequestLock? || InClaim(pc) }

  predicate HoldsScope(pc: Pc) { InClaim(pc) && !pc.AskScopeLock? }

  predicate ScopeRead(pc: Pc) { HoldsScope(pc) && !pc.SelectScope? && !pc.JudgeScope? }

  predicate RequestRead(pc: Pc) { pc.CheckBook? || pc.CheckActive? || pc.LoadRelease? || pc.InsertIntent? }

  /** Rows the claim's transaction has read for update or retired, and so keeps locked. */
  function Holding(pc: Pc): set<IntentId> {
    if pc.JudgeScope? then {pc.existing} else if ScopeRead(pc) then pc.retired else {}
  }

  ghost predicate Owns(s: State, l: int, w: Worker) { l in s.locks && s.locks[l] == w }

  /** Rows held are locked by this worker and are accepted; retired ones also owe no bookkeeping. */
  ghost predicate HeldRow(s: State, w: Worker, id: IntentId) {
    && id in s.rowLocks && s.rowLocks[id] == w
    && id in s.t.intents && s.t.intents[id].phase.Accepted?
    && (ScopeRead(At(s, w)) ==> s.t.intents[id].Settled())
  }

  /** Every live row of the scope is one this claim is retiring. */
  ghost predicate ScopeClear(s: State, scopeKey: string, retired: set<IntentId>) {
    forall id :: id in s.t.intents && s.t.intents[id].Live() && s.t.intents[id].request.scopeKey == scopeKey ==>
        id in retired
  }

  ghost predicate RequestClear(s: State, requestKey: string, retired: set<IntentId>) {
    forall id :: id in s.t.intents && s.t.intents[id].Live() && s.t.intents[id].request.requestKey == requestKey ==>
        id in retired
  }

  ghost predicate Knows(h: LockIds, s: State, w: Worker) {
    var pc := At(s, w);
    InClaim(pc) ==>
      && Owns(s, h.request(pc.c.requestKey), w)
      && (HoldsScope(pc) ==> Owns(s, h.scope(pc.c.scopeKey), w))
      && (forall id :: id in Holding(pc) ==> HeldRow(s, w, id))
      && (pc.JudgeScope? ==> ScopeClear(s, pc.c.scopeKey, {pc.existing}))
      && (ScopeRead(pc) ==> ScopeClear(s, pc.c.scopeKey, pc.retired))
      && (RequestRead(pc) ==> RequestClear(s, pc.c.requestKey, pc.retired))
  }

  ghost predicate ClaimInv(h: LockIds, s: State) {
    && Bookkeeping.Keyed(s.t)
    && LiveUnique(s.t.intents)
    && forall w :: Knows(h, s, w)
  }

  // ---- statements outside a claim ----

  /** The five ways a statement moves a row. */
  datatype Move = Accepts(status: Status) | Marks | Recovers(token: Token) | Releases | Books

  predicate MayMove(s: State, a: Intent, m: Move) {
    match m
    case Accepts(_) => a.leaseToken.Some? && CanAccept(a, a.leaseToken.value, s.clock)
    case Marks => a.leaseToken.Some? && CanMarkUncertain(a, a.leaseToken.value)
    case Recovers(token) => CanRecover(a, s.clock) && token !in s.issued
    case Releases => CanOperatorRelease(a, s.clock)
    case Books => a.phase.Accepted? && a.bookkeepingRequired && a.bookkeepingAt.None?
  }

  function Moved(s: State, a: Intent, m: Move): Intent {
    match m
    case Accepts(status) => AcceptedRow(a, status)
    case Marks => UncertainRow(a, s.clock)
    case Recovers(token) => Recovered(a, token, s.clock)
    case Releases => OperatorReleased(a)
    case Books => a.(bookkeepingAt := Some(s.clock))
  }

  /** Exactly one unlocked row moves, and the histories record it. */
  ghost predicate OneRow(s: State, s': State, id: IntentId, m: Move) {
    && id in s.t.intents && Free(s, id) && MayMove(s, s.t.intents[id], m) && s'.clock == s.clock
    && s'.t.intents == s.t.intents[id := Moved(s, s.t.intents[id], m)]
    && s'.receipts == (if m.Accepts? then s.receipts + [id] else s.receipts)
    && s'.issued == (if m.Recovers? then s.issued + {m.token} else s.issued)
    && s'.claims
        == (if m.Recovers? then s.claims[id := (if id in s.claims then s.claims[id] else []) + [s.clock]] else s.claims)
    && s'.t.history == (if m.Books? then s.t.history + [Bookkeeping.GrabEvent(s.t.intents[id])] else s.t.history)
  }

  ghost predicate NoRow(s: State, s': State) {
    && s'.t.intents == s.t.intents && s'.receipts == s.receipts && s'.issued == s.issued && s'.claims == s.claims
    && (s'.t.history == s.t.history || exists kind :: s'.t.history == s.t.history + [OtherEvent(kind)])
  }

  /** A step outside a claim: at most one row moves, it was not locked, and no claim's worker moves. */
  ghost predicate RowEffect(s: State, s': State, w: Worker) {
    && s'.locks == s.locks && s'.rowLocks == s.rowLocks && s.clock <= s'.clock
    && (s'.workers == s.workers
        || (!InClaim(At(s, w)) && !InClaim(At(s', w)) && s'.workers == s.workers[w := At(s', w)]))
    && (NoRow(s, s') || exists id, m :: OneRow(s, s', id, m))
  }

  /** One row moves, and then one worker outside a claim moves on. */
  lemma OneRowThenGo(s: State, s1: State, w: Worker, pc: Pc, id: IntentId, m: Move)
    requires OneRow(s, s1, id, m) && s1.locks == s.locks && s1.rowLocks == s.rowLocks && s1.workers == s.workers
    requires !InClaim(At(s, w)) && !InClaim(pc)
    ensures RowEffect(s, Go(s1, w, pc), w)
  {
    assert OneRow(s, Go(s1, w, pc), id, m);
  }

  function Accepted1(s: State, row: Intent, status: Status): State
    requires row.id in s.t.intents
  {
    SetRow(s, AcceptedRow(s.t.intents[row.id], status)).(receipts := s.receipts + [row.id])
  }

  lemma AcceptEffect(s: State, s': State, w: Worker, ok: bool)
    requires Bookkeeping.Keyed(s.t) && AcceptStatement(s, s', w, ok)
    ensures RowEffect(s, s', w)
  {
    var pc := At(s, w);
    if TokenAccepts(s, pc.row) {
      OneRowThenGo(s, Accepted1(s, pc.row, pc.status), w, At(s', w), pc.row.id, Accepts(pc.status));
    } else {
      GoEffect(s, s, w, ReportUncertain(pc.row));
    }
  }

  lemma UncertainEffect(s: State, s': State, w: Worker)
    requires Bookkeeping.Keyed(s.t) && UncertainStatement(s, s', w)
    ensures RowEffect(s, s', w)
  {
    var pc := At(s, w);
    if TokenMarks(s, pc.row) {
      assert OneRow(s, s', pc.row.id, Marks);
    }
  }

  function Recovered1(s: State, id: IntentId, token: Token): State
    requires id in s.t.intents
  {
    SetRow(s, Recovered(s.t.intents[id], token, s.clock)).(
      issued := s.issued + {token}, claims := s.claims[id := (if id in s.claims then s.claims[id] else []) + [s.clock]])
  }

  lemma RecoverMoves(s: State, id: IntentId, token: Token)
    requires Bookkeeping.Keyed(s.t) && Free(s, id) && id in s.t.intents && CanRecover(s.t.intents[id], s.clock)
    requires token !in s.issued
    ensures var s1 := Recovered1(s, id, token);
      OneRow(s, s1, id, Recovers(token)) && s1.locks == s.locks && s1.rowLocks == s.rowLocks && s1.workers == s.workers
  {}

  lemma RecoveredEffect(s: State, w: Worker, id: IntentId, token: Token, pc: Pc)
    requires Bookkeeping.Keyed(s.t) && Free(s, id) && id in s.t.intents && CanRecover(s.t.intents[id], s.clock)
    requires token !in s.issued && !InClaim(At(s, w)) && !InClaim(pc)
    ensures RowEffect(s, Go(Recovered1(s, id, token), w, pc), w)
  {
    RecoverMoves(s, id, token);
    OneRowThenGo(s, Recovered1(s, id, token), w, pc, id, Recovers(token));
  }

  lemma RecoverTaken(s: State, s': State, w: Worker, token: Token)
    requires RecoverStatement(s, s', w, token)
    requires At(s, w).id in s.t.intents && CanRecover(s.t.intents[At(s, w).id], s.clock)
    ensures var row := Recovered(s.t.intents[At(s, w).id], token, s.clock);
      s' == Go(Recovered1(s, At(s, w).id, token), w, ListClient(row, At(s, w).downloadId))
  {}

  lemma RecoverEffect(s: State, s': State, w: Worker, token: Token)
    requires Bookkeeping.Keyed(s.t) && RecoverStatement(s, s', w, token)
    ensures RowEffect(s, s', w)
  {
    var pc := At(s, w);
    if pc.id in s.t.intents && CanRecover(s.t.intents[pc.id], s.clock) {
      RecoverTaken(s, s', w, token);
      RecoveredEffect(s, w, pc.id, token, At(s', w));
    } else {
      GoEffect(s, s, w, Idle);
    }
  }

  lemma FinalizeEffect(s: State, s': State, w: Worker)
    requires Bookkeeping.Keyed(s.t) && FinalizeStatement(s, s', w)
    ensures RowEffect(s, s', w)
  {
    var pc := At(s, w);
    if s'.t.intents != s.t.intents {
      assert OneRow(s, s', pc.id, Books);
    }
  }

  lemma ReleaseEffect(s: State, s': State, w: Worker, id: IntentId)
    requires Bookkeeping.Keyed(s.t) && OperatorRelease(s, s', id)
    ensures RowEffect(s, s', w)
  {
    assert OneRow(s, s', id, Releases);
  }

  lemma RowStepEffect(s: State, s': State, w: Worker)
    requires Bookkeeping.Keyed(s.t) && RowStep(s, s', w)
    ensures RowEffect(s, s', w)
  {
    if ok :| AcceptStatement(s, s', w, ok) { AcceptEffect(s, s', w, ok); }
    else if UncertainStatement(s, s', w) { UncertainEffect(s, s', w); }
    else if token :| RecoverStatement(s, s', w, token) { RecoverEffect(s, s', w, token); }
    else if FinalizeStatement(s, s', w) { FinalizeEffect(s, s', w); }
    else { var id :| OperatorRelease(s, s', id); ReleaseEffect(s, s', w, id); }
  }

  /** Only downloads, notes and sends differ. */
  ghost predicate SameBut(s: State, s1: State) {
    && s1.t.intents == s.t.intents && s1.t.history == s.t.history && s1.clock == s.clock && s1.workers == s.workers
    && s1.locks == s.locks && s1.rowLocks == s.rowLocks && s1.issued == s.issued && s1.receipts == s.receipts
        && s1.claims == s.claims
  }

  lemma WrittenSameBut(s: State, row: Noted)
    ensures SameBut(s, Written(s, row)) && Written(s, row).adds == s.adds
  {}

  /** A worker outside a claim moves on; only downloads, notes and sends may have changed. */
  lemma GoEffect(s: State, s1: State, w: Worker, pc: Pc)
    requires !InClaim(At(s, w)) && !InClaim(pc)
    requires SameBut(s, s1)
    ensures RowEffect(s, Go(s1, w, pc), w) && NoRow(s, Go(s1, w, pc))
  {}

  lemma BeginEffect(s: State, s': State, w: Worker, pc: Pc)
    requires At(s, w).Idle? && !InClaim(pc) && s' == Go(s, w, pc)
    ensures RowEffect(s, s', w)
  {}

  lemma SendEffect(s: State, s': State, w: Worker, reply: Reply)
    requires SendAdd(s, s', w, reply)
    ensures RowEffect(s, s', w) && NoRow(s, s')
  {}

  lemma ListEffect(s: State, s': State, w: Worker, e: string, listed: Option<seq<Status>>)
    requires ListOnce(s, s', w, e, listed)
    ensures RowEffect(s, s', w) && NoRow(s, s')
  {}

  lemma WriteEffect(s: State, s': State, w: Worker)
    requires WriteRow(s, s', w)
    ensures RowEffect(s, s', w) && NoRow(s, s')
  {
    var pc := At(s, w);
    if pc.rows == [] {
      GoEffect(s, s, w, if pc.next.Some? then Finalizing(pc.next.value) else Idle);
    }
  }

  lemma LinkEffect(s: State, s': State, w: Worker, rows: seq<Intent>)
    requires LinkQuery(s, s', w, rows)
    ensures RowEffect(s, s', w) && NoRow(s, s')
  {}

  lemma ReadEffect(s: State, s': State, w: Worker)
    requires GetIntent(s, s', w) || ReplayReceipt(s, s', w)
    ensures RowEffect(s, s', w) && NoRow(s, s')
  {}

  lemma BeginningsEffect(s: State, s': State, w: Worker)
    requires (exists c :: BeginClaim(s, s', w, c)) || (exists id, d :: BeginReconcile(s, s', w, id, d))
        || (exists listed :: BeginPoll(s, s', w, listed))
    ensures RowEffect(s, s', w) && NoRow(s, s')
  {
    if c :| BeginClaim(s, s', w, c) { BeginEffect(s, s', w, AskRequestLock(c)); }
    else if id, d :| BeginReconcile(s, s', w, id, d) { BeginEffect(s, s', w, Get(id, d)); }
    else { var listed :| BeginPoll(s, s', w, listed); BeginEffect(s, s', w, ReadLinks(listed, None)); }
  }

  lemma QuietStepEffect(s: State, s': State, w: Worker)
    requires QuietStep(s, s', w)
    ensures RowEffect(s, s', w) && NoRow(s, s')
  {
    if reply :| SendAdd(s, s', w, reply) { SendEffect(s, s', w, reply); }
    else if e, listed :| ListOnce(s, s', w, e, listed) { ListEffect(s, s', w, e, listed); }
    else if rows :| LinkQuery(s, s', w, rows) { LinkEffect(s, s', w, rows); }
    else if WriteRow(s, s', w) { WriteEffect(s, s', w); }
    else if GetIntent(s, s', w) || ReplayReceipt(s, s', w) { ReadEffect(s, s', w); }
    else { BeginningsEffect(s, s', w); }
  }

  // ---- keeping ClaimInv ----

  lemma MoveEvolves(s: State, a: Intent, m: Move)
    requires MayMove(s, a, m)
    ensures Evolves(a, Moved(s, a, m)) && SameRecord(a, Moved(s, a, m)) && a.Live()
  {}

  /** Rows only leave the live set, and none of the changed rows is one a claim holds. */
  ghost predicate Shrinks(s: State, s': State) {
    && s'.locks == s.locks && s'.rowLocks == s.rowLocks
    && s'.t.intents.Keys == s.t.intents.Keys
    && forall id :: id in s.t.intents ==>
         && SameRecord(s.t.intents[id], s'.t.intents[id]) && (s'.t.intents[id].Live() ==> s.t.intents[id].Live())
         && (id in s.rowLocks ==> s'.t.intents[id] == s.t.intents[id])
  }

  lemma RowEffectShrinks(s: State, s': State, w: Worker)
    requires Bookkeeping.Keyed(s.t) && RowEffect(s, s', w)
    ensures Shrinks(s, s') && Bookkeeping.Keyed(s'.t)
  {
    if s'.t.intents != s.t.intents {
      var id, m :| OneRow(s, s', id, m);
      MoveEvolves(s, s.t.intents[id], m);
    }
  }

  lemma ShrinksKeepsKnowledge(h: LockIds, s: State, s': State, w: Worker)
    requires Knows(h, s, w) && Shrinks(s, s') && At(s', w) == At(s, w)
    ensures Knows(h, s', w)
  {
    if InClaim(At(s, w)) {
      forall id | id in Holding(At(s, w)) ensures HeldRow(s', w, id) { assert HeldRow(s, w, id); }
    }
  }

  /** Any step that moves at most one unlocked row and no claim leaves every claim's knowledge standing. */
  lemma RowEffectKeepsKnowledge(h: LockIds, s: State, s': State, w: Worker)
    requires ClaimInv(h, s) && RowEffect(s, s', w)
    ensures ClaimInv(h, s')
  {
    RowEffectShrinks(s, s', w);
    forall x ensures Knows(h, s', x) {
      if At(s', x) == At(s, x) { ShrinksKeepsKnowledge(h, s, s', x); }
    }
  }

  // ---- the claim's own statements ----

  /** A worker's move that changes no row: it only has to re-establish what it knows itself. */
  lemma OwnMoveKeepsKnowledge(h: LockIds, s: State, s': State, w: Worker)
    requires ClaimInv(h, s) && s'.t == s.t && Knows(h, s', w)
    requires forall x :: x != w ==> At(s', x) == At(s, x)
    requires forall l :: l in s.locks && s.locks[l] != w ==> l in s'.locks && s'.locks[l] == s.locks[l]
    requires forall r :: r in s.rowLocks && s.rowLocks[r] != w ==> r in s'.rowLocks && s'.rowLocks[r] == s.rowLocks[r]
    ensures ClaimInv(h, s')
  {
    forall x ensures Knows(h, s', x) {
      if x != w { assert Knows(h, s, x); }
    }
  }

  lemma EndKeepsKnowledge(h: LockIds, s: State, w: Worker, pc: Pc)
    requires ClaimInv(h, s) && !InClaim(pc)
    ensures ClaimInv(h, Go(EndTx(s, w), w, pc))
  {
    OwnMoveKeepsKnowledge(h, s, Go(EndTx(s, w), w, pc), w);
  }

  lemma LocksKeepKnowledge(h: LockIds, s: State, s': State, w: Worker)
    requires ClaimInv(h, s) && (TakeRequestLock(h, s, s', w) || TakeScopeLock(h, s, s', w))
    ensures ClaimInv(h, s')
  {
    assert Knows(h, s, w);
    OwnMoveKeepsKnowledge(h, s, s', w);
  }

  lemma SelectKeepsKnowledge(h: LockIds, s: State, s': State, w: Worker)
    requires ClaimInv(h, s) && SelectNone(s, s', w)
    ensures ClaimInv(h, s')
  {
    assert Knows(h, s, w);
    var c := At(s, w).c;
    assert ScopeClear(s', c.scopeKey, {}) by {
      forall id | id in s.t.intents && s.t.intents[id].Live() ensures s.t.intents[id].request.scopeKey != c.scopeKey {
        assert !LiveInScope(s, id, c.scopeKey);
      }
    }
    OwnMoveKeepsKnowledge(h, s, s', w);
  }

  lemma SelectExistingKeepsKnowledge(h: LockIds, s: State, s': State, w: Worker, id: IntentId)
    requires ClaimInv(h, s) && SelectExisting(s, s', w, id)
    ensures ClaimInv(h, s')
  {
    assert Knows(h, s, w);
    var c := At(s, w).c;
    if s.t.intents[id].phase.Accepted? {
      assert ScopeClear(s', c.scopeKey, {id}) by {
        forall x | x in s.t.intents && s.t.intents[x].Live() && s.t.intents[x].request.scopeKey == c.scopeKey
          ensures x == id
        {
          assert s.t.intents[x].request.scopeKey == s.t.intents[id].request.scopeKey;
        }
      }
      OwnMoveKeepsKnowledge(h, s, s', w);
    } else {
      EndKeepsKnowledge(h, s, w, AfterExisting(s.t.intents[id], c));
    }
  }

  lemma JudgeKeepsKnowledge(h: LockIds, s: State, s': State, w: Worker)
    requires ClaimInv(h, s) && JudgeExisting(s, s', w)
    ensures ClaimInv(h, s')
  {
    assert Knows(h, s, w);
    var pc := At(s, w);
    var row := s.t.intents[pc.existing];
    if FreesScope(s.t, row, pc.c.requestKey) && row.Settled() {
      assert forall id :: id in Holding(pc) ==> HeldRow(s, w, id);
      assert HeldRow(s, w, pc.existing);
      OwnMoveKeepsKnowledge(h, s, s', w);
    } else {
      EndKeepsKnowledge(h, s, w, AfterExisting(row, pc.c));
    }
  }

  lemma RetireKeepsKnowledge(h: LockIds, s: State, s': State, w: Worker)
    requires ClaimInv(h, s) && RetireByRequest(s, s', w)
    ensures ClaimInv(h, s')
  {
    assert Knows(h, s, w);
    var pc := At(s, w);
    var more := Retirable(s, pc.c.requestKey);
    forall id | id in pc.retired + more ensures HeldRow(s', w, id) {
      if id !in more { assert HeldRow(s, w, id); }
    }
    forall r | r in s.rowLocks && s.rowLocks[r] != w ensures r in s'.rowLocks && s'.rowLocks[r] == s.rowLocks[r] {
      assert r in more ==> Grabbable(s, r, w);
    }
    OwnMoveKeepsKnowledge(h, s, s', w);
  }

  lemma CheckRequestKeepsKnowledge(h: LockIds, s: State, s': State, w: Worker)
    requires ClaimInv(h, s) && CheckOtherRequest(s, s', w)
    ensures ClaimInv(h, s')
  {
    assert Knows(h, s, w);
    var pc := At(s, w);
    if OtherRequest(s, pc.c, pc.retired) {
      EndKeepsKnowledge(h, s, w, Idle);
    } else {
      assert forall id :: id in pc.retired ==> HeldRow(s, w, id);
      OwnMoveKeepsKnowledge(h, s, s', w);
    }
  }

  /** A move between two claim statements that read only books, downloads or releases. */
  lemma ForwardKeepsKnowledge(h: LockIds, s: State, w: Worker, pc: Pc)
    requires ClaimInv(h, s) && RequestRead(At(s, w)) && RequestRead(pc)
    requires pc.c.requestKey == At(s, w).c.requestKey && pc.c.scopeKey == At(s, w).c.scopeKey
    requires pc.retired == At(s, w).retired
    ensures ClaimInv(h, Go(s, w, pc))
  {
    assert Knows(h, s, w);
    var s' := Go(s, w, pc);
    forall id | id in pc.retired ensures HeldRow(s', w, id) {
      assert id in Holding(At(s, w)) && HeldRow(s, w, id);
    }
    OwnMoveKeepsKnowledge(h, s, s', w);
  }

  lemma EligibleKeepsKnowledge(h: LockIds, s: State, s': State, w: Worker)
    requires ClaimInv(h, s) && CheckEligible(s, s', w)
    ensures ClaimInv(h, s')
  {
    if InClaim(At(s', w)) { ForwardKeepsKnowledge(h, s, w, At(s', w)); } else { EndKeepsKnowledge(h, s, w, Idle); }
  }

  lemma NoActiveKeepsKnowledge(h: LockIds, s: State, s': State, w: Worker)
    requires ClaimInv(h, s) && CheckNoActive(s, s', w)
    ensures ClaimInv(h, s')
  {
    if InClaim(At(s', w)) { ForwardKeepsKnowledge(h, s, w, At(s', w)); } else { EndKeepsKnowledge(h, s, w, Idle); }
  }

  lemma LoadKeepsKnowledge(h: LockIds, s: State, s': State, w: Worker)
    requires ClaimInv(h, s) && LoadSelected(s, s', w)
    ensures ClaimInv(h, s')
  {
    if InClaim(At(s', w)) { ForwardKeepsKnowledge(h, s, w, At(s', w)); } else { EndKeepsKnowledge(h, s, w, Idle); }
  }

  lemma ClaimStepKeepsKnowledge(h: LockIds, s: State, s': State, w: Worker)
    requires ClaimInv(h, s) && ClaimStep(h, s, s', w)
    ensures ClaimInv(h, s')
  {
    if TakeRequestLock(h, s, s', w) || TakeScopeLock(h, s, s', w) { LocksKeepKnowledge(h, s, s', w); }
    else if SelectNone(s, s', w) { SelectKeepsKnowledge(h, s, s', w); }
    else if id :| SelectExisting(s, s', w, id) { SelectExistingKeepsKnowledge(h, s, s', w, id); }
    else if JudgeExisting(s, s', w) { JudgeKeepsKnowledge(h, s, s', w); }
    else if RetireByRequest(s, s', w) { RetireKeepsKnowledge(h, s, s', w); }
    else if CheckOtherRequest(s, s', w) { CheckRequestKeepsKnowledge(h, s, s', w); }
    else if CheckEligible(s, s', w) { EligibleKeepsKnowledge(h, s, s', w); }
    else if CheckNoActive(s, s', w) { NoActiveKeepsKnowledge(h, s, s', w); }
    else { LoadKeepsKnowledge(h, s, s', w); }
  }

  // ---- the insert ----

  /** At its insert a claim has excluded every other live row of its scope and of its request. */
  lemma CommitKeepsUnique(h: LockIds, s: State, w: Worker, row: Intent)
    requires ClaimInv(h, s) && At(s, w).InsertIntent? && row.id !in s.t.intents && row.request == At(s, w).c
    ensures LiveUnique(Commit(s.t.intents, At(s, w).retired, row))
  {
    assert Knows(h, s, w);
    var pc := At(s, w);
    var rows := Commit(s.t.intents, pc.retired, row);
    forall id | id in s.t.intents && rows[id].Live()
      ensures s.t.intents[id].Live() && id !in pc.retired && rows[id] == s.t.intents[id]
      ensures rows[id].request.scopeKey != pc.c.scopeKey && rows[id].request.requestKey != pc.c.requestKey
    {}
  }

  /** Two claims under way hold different request locks, and different scope locks once both have one. */
  lemma ClaimsDiffer(h: LockIds, s: State, w: Worker, x: Worker)
    requires ClaimInv(h, s) && At(s, w).InsertIntent? && InClaim(At(s, x)) && x != w
    ensures At(s, x).c.requestKey != At(s, w).c.requestKey
    ensures HoldsScope(At(s, x)) ==> At(s, x).c.scopeKey != At(s, w).c.scopeKey
  {
    assert Knows(h, s, w) && Knows(h, s, x);
  }

  lemma CommitKeepsHeld(h: LockIds, s: State, s': State, w: Worker, x: Worker, id: IntentId, token: Token, began: Time,
          required: bool, r: IntentId)
    requires ClaimInv(h, s) && CommitClaim(s, s', w, id, token, began, required) && x != w
    requires InClaim(At(s, x)) && r in Holding(At(s, x))
    ensures HeldRow(s', x, r)
  {
    assert Knows(h, s, w) && Knows(h, s, x);
    assert HeldRow(s, x, r);
    assert r in At(s, w).retired ==> HeldRow(s, w, r);
  }

  lemma CommitKeepsOthers(h: LockIds, s: State, s': State, w: Worker, x: Worker, id: IntentId, token: Token,
          began: Time, required: bool)
    requires ClaimInv(h, s) && CommitClaim(s, s', w, id, token, began, required) && x != w
    ensures Knows(h, s', x)
  {
    assert Knows(h, s, x);
    var pcx := At(s, x);
    if InClaim(pcx) {
      ClaimsDiffer(h, s, w, x);
      forall r | r in Holding(pcx)
        ensures HeldRow(s', x, r)
      {
        CommitKeepsHeld(h, s, s', w, x, id, token, began, required, r);
      }
    }
  }

  lemma CommitKeepsKnowledge(h: LockIds, s: State, s': State, w: Worker, id: IntentId, token: Token, began: Time,
          required: bool)
    requires ClaimInv(h, s) && CommitClaim(s, s', w, id, token, began, required)
    ensures ClaimInv(h, s')
  {
    CommitKeepsUnique(h, s, w, s'.t.intents[id]);
    forall x ensures Knows(h, s', x) {
      if x != w { CommitKeepsOthers(h, s, s', w, x, id, token, began, required); }
    }
  }

  lemma WorldEffect(s: State, s': State, w: Worker)
    requires WorldStep(s, s')
    ensures RowEffect(s, s', w) && NoRow(s, s')
  {
    if k, m :| MarkDownload(s, s', k, m) { MarkEffect(s, s', w, k, m); }
    else if wanted, releases, kind :| Elsewhere(s, s', wanted, releases, kind) {
      ElsewhereEffect(s, s', w, wanted, releases, kind);
    }
    else { var to :| Tick(s, s', to); }
  }

  lemma MarkEffect(s: State, s': State, w: Worker, k: DownloadKey, m: Mark)
    requires MarkDownload(s, s', k, m)
    ensures RowEffect(s, s', w) && NoRow(s, s')
  {}

  lemma ElsewhereEffect(s: State, s': State, w: Worker, wanted: map<string, Wanted>, releases: map<string, Release>,
          kind: string)
    requires Elsewhere(s, s', wanted, releases, kind)
    ensures RowEffect(s, s', w) && NoRow(s, s')
  {}

  /** Every step of the machine keeps live rows unique and every claim's reads true. */
  lemma StepKeepsClaimInv(h: LockIds, s: State, s': State, w: Worker)
    requires ClaimInv(h, s) && Step(h, s, s', w)
    ensures ClaimInv(h, s')
  {
    if ClaimStep(h, s, s', w) { ClaimStepKeepsKnowledge(h, s, s', w); }
    else if id, token, began, required :| CommitClaim(s, s', w, id, token, began, required) {
      CommitKeepsKnowledge(h, s, s', w, id, token, began, required);
    }
    else if QuietStep(s, s', w) { QuietStepEffect(s, s', w); RowEffectKeepsKnowledge(h, s, s', w); }
    else if RowStep(s, s', w) { RowStepEffect(s, s', w); RowEffectKeepsKnowledge(h, s, s', w); }
    else if WorldStep(s, s') { WorldEffect(s, s', w); RowEffectKeepsKnowledge(h, s, s', w); }
    else { EndKeepsKnowledge(h, s, w, Idle); }
  }

  lemma RunNext(h: LockIds, run: seq<State>, k: nat)
    requires Run(h, run) && 0 < k < |run|
    ensures Next(h, run[k - 1], run[k])
  {
    assert StepsAt(h, run, k - 1);
  }

  lemma NextKeepsClaimInv(h: LockIds, s: State, s': State)
    ensures ClaimInv(h, s) && Next(h, s, s') ==> ClaimInv(h, s')
  {
    if ClaimInv(h, s) && Next(h, s, s') {
      var w :| Step(h, s, s', w);
      StepKeepsClaimInv(h, s, s', w);
    }
  }

  lemma {:induction false} RunKeepsClaimInv(h: LockIds, run: seq<State>, k: nat)
    requires Run(h, run) && k < |run|
    ensures ClaimInv(h, run[k])
  {
    if k > 0 {
      RunKeepsClaimInv(h, run, k - 1);
      RunNext(h, run, k);
      NextKeepsClaimInv(h, run[k - 1], run[k]);
    }
  }

  /**
    Live uniqueness: in every reachable state each scope key and each request key has
    at most one intent that is not released, so no insert ever meets the two unique
    indexes.
   */
  lemma OneLiveIntentPerKey(h: LockIds, run: seq<State>, k: nat, a: IntentId, b: IntentId)
    requires Run(h, run) && k < |run|
    requires a in run[k].t.intents && b in run[k].t.intents && run[k].t.intents[a].Live() && run[k].t.intents[b].Live()
    requires run[k].t.intents[a].request.scopeKey == run[k].t.intents[b].request.scopeKey
          || run[k].t.intents[a].request.requestKey == run[k].t.intents[b].request.requestKey
    ensures a == b
  {
    RunKeepsClaimInv(h, run, k);
  }
}
