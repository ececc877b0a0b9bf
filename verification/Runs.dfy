/**
  Building runs of the machine one step at a time: each lemma takes a reachable state to
  the next one and says what changed and what did not, so that a particular run is a list
  of calls. A claim that nothing stands in the way of is one call, from the idle worker to
  the committed intent; the path versions extend a stretch of a run in place.
 */
module Runs {
  import opened Text
  import opened Records
  import opened Downloads
  import opened Statements
  import opened Protocol
  import opened ClaimRules
  import Bookkeeping
  import Identity

  ghost predicate Reachable(h: LockIds, s: State) {
    exists run :: Run(h, run) && run[|run| - 1] == s
  }

  /** A stretch of a run. */
  ghost predicate Path(h: LockIds, path: seq<State>) {
    path != [] && forall k {:trigger StepsAt(h, path, k)} :: 0 <= k < |path| - 1 ==> StepsAt(h, path, k)
  }

  lemma PathGrows(h: LockIds, path: seq<State>, s': State)
    requires Path(h, path) && Next(h, path[|path| - 1], s')
    ensures Path(h, path + [s'])
  {
    var more := path + [s'];
    forall k | 0 <= k < |more| - 1 ensures StepsAt(h, more, k) {
      if k < |path| - 1 { assert StepsAt(h, path, k); }
    }
  }

  lemma RunAlong(h: LockIds, run: seq<State>, path: seq<State>)
    requires Run(h, run) && Path(h, path) && path[0] == run[|run| - 1]
    ensures Run(h, run + path[1..])
  {
    var more := run + path[1..];
    forall k | 0 <= k < |more| - 1 ensures StepsAt(h, more, k) {
      if k < |run| - 1 {
        assert StepsAt(h, run, k);
      } else {
        assert StepsAt(h, path, k - (|run| - 1));
      }
    }
  }

  lemma RunGrows(h: LockIds, run: seq<State>, s': State)
    requires Run(h, run) && Next(h, run[|run| - 1], s')
    ensures Run(h, run + [s'])
  {
    PathGrows(h, run, s');
  }

  lemma ReachNext(h: LockIds, s: State, s': State, w: Worker)
    requires Reachable(h, s) && Step(h, s, s', w)
    ensures Reachable(h, s')
  {
    var run :| Run(h, run) && run[|run| - 1] == s;
    RunGrows(h, run, s');
    assert (run + [s'])[|run + [s']| - 1] == s';
  }

  lemma ReachQuiet(h: LockIds, s: State, s': State, w: Worker)
    requires Reachable(h, s) && QuietStep(s, s', w)
    ensures Reachable(h, s') && Next(h, s, s')
  {
    assert Step(h, s, s', w);
    ReachNext(h, s, s', w);
  }

  lemma ReachClaim(h: LockIds, s: State, s': State, w: Worker)
    requires Reachable(h, s) && ClaimStep(h, s, s', w)
    ensures Reachable(h, s')
  {
    ReachNext(h, s, s', w);
  }

  lemma ReachRow(h: LockIds, s: State, s': State, w: Worker)
    requires Reachable(h, s) && RowStep(s, s', w)
    ensures Reachable(h, s')
  {
    ReachNext(h, s, s', w);
  }

  function Start(wanted: map<string, Wanted>): State {
    State(Tables(map[], map[], wanted, map[], []), 0, map[], map[], map[], {}, [], [], map[], map[])
  }

  lemma StartIsReachable(h: LockIds, wanted: map<string, Wanted>)
    ensures Reachable(h, Start(wanted))
  {
    var run := [Start(wanted)];
    assert Init(run[0]);
    assert Run(h, run) && run[|run| - 1] == Start(wanted);
  }

  // ---- what a step leaves alone ----

  /** Only worker w moved, to this place. */
  ghost predicate Moves(s: State, s': State, w: Worker, pc: Pc) {
    At(s', w) == pc && forall v :: v != w ==> At(s', v) == At(s, v)
  }

  ghost predicate NoLocks(s: State) {
    s.locks == map[] && s.rowLocks == map[]
  }

  /** Nothing that a claim or a statement looks at changed. */
  ghost predicate SameStore(s: State, s': State) {
    s'.t == s.t && s'.clock == s.clock && s'.locks == s.locks && s'.rowLocks == s.rowLocks && s'.issued == s.issued
  }

  // ---- there is always another worker, and an order for a query's rows ----

  lemma {:induction false} Above(ids: set<nat>) returns (n: nat)
    ensures forall x :: x in ids ==> x < n
  {
    n := 0;
    if ids != {} {
      var x :| x in ids;
      var m := Above(ids - {x});
      n := if m > x then m else x + 1;
      forall y | y in ids ensures y < n { assert y == x || y in ids - {x}; }
    }
  }

  lemma IdleWorker(s: State) returns (v: Worker)
    ensures At(s, v).Idle?
  {
    v := Above(s.workers.Keys);
  }

  lemma {:induction false} InSomeOrder(intents: map<IntentId, Intent>, ids: set<IntentId>) returns (rows: seq<Intent>)
    requires forall id :: id in ids ==> id in intents && intents[id].id == id
    ensures forall k :: 0 <= k < |rows| ==> rows[k].id in ids && rows[k] == intents[rows[k].id]
    ensures forall id :: id in ids ==> intents[id] in rows
  {
    rows := [];
    if ids != {} {
      var x :| x in ids;
      var rest := InSomeOrder(intents, ids - {x});
      rows := [intents[x]] + rest;
      assert rows[0] == intents[x] && forall k :: 0 < k < |rows| ==> rows[k] == rest[k - 1];
      forall id | id in ids ensures intents[id] in rows { assert id == x || intents[id] in rest; }
    }
  }

  lemma SomeLinkRows(t: Tables, listed: seq<Status>) returns (rows: seq<Intent>)
    requires Bookkeeping.Keyed(t)
    ensures LinkRows(t.intents, listed, rows)
  {
    rows := InSomeOrder(t.intents, LinkableIds(t.intents, listed));
  }

  // ---- workers outside a claim ----

  lemma Polls(h: LockIds, s: State, w: Worker, listed: seq<Status>) returns (s': State)
    requires Reachable(h, s) && At(s, w).Idle?
    ensures Reachable(h, s') && Next(h, s, s') && SameStore(s, s') && Moves(s, s', w, ReadLinks(listed, None))
  {
    s' := Go(s, w, ReadLinks(listed, None));
    assert BeginPoll(s, s', w, listed);
    ReachQuiet(h, s, s', w);
  }

  lemma Links(h: LockIds, s: State, w: Worker, rows: seq<Intent>) returns (s': State)
    requires Reachable(h, s) && At(s, w).ReadLinks? && LinkRows(s.t.intents, At(s, w).listed, rows)
    ensures Reachable(h, s') && Next(h, s, s') && SameStore(s, s')
    ensures Moves(s, s', w, WriteRows(Restored(At(s, w).listed, rows), At(s, w).next))
  {
    s' := Go(s, w, WriteRows(Restored(At(s, w).listed, rows), At(s, w).next));
    assert LinkQuery(s, s', w, rows);
    ReachQuiet(h, s, s', w);
  }

  lemma Writes(h: LockIds, s: State, w: Worker) returns (s': State)
    requires Reachable(h, s) && At(s, w).WriteRows? && At(s, w).rows != []
    ensures Reachable(h, s') && Next(h, s, s') && WriteRow(s, s', w)
    ensures Moves(s, s', w, WriteRows(At(s, w).rows[1..], At(s, w).next))
    ensures s'.t == s.t.(downloads := Upsert(s.t.downloads, At(s, w).rows[0].st, s.clock))
    ensures s'.clock == s.clock && s'.locks == s.locks && s'.rowLocks == s.rowLocks && s'.issued == s.issued
  {
    s' := Go(Written(s, At(s, w).rows[0]), w, WriteRows(At(s, w).rows[1..], At(s, w).next));
    assert WriteRow(s, s', w);
    ReachQuiet(h, s, s', w);
  }

  // ---- the same, along a path ----

  lemma PollsOn(h: LockIds, path: seq<State>, w: Worker, listed: seq<Status>) returns (s': State)
    requires Path(h, path) && Reachable(h, path[|path| - 1]) && At(path[|path| - 1], w).Idle?
    ensures Path(h, path + [s']) && Reachable(h, s')
    ensures SameStore(path[|path| - 1], s') && Moves(path[|path| - 1], s', w, ReadLinks(listed, None))
  {
    s' := Polls(h, path[|path| - 1], w, listed);
    PathGrows(h, path, s');
  }

  lemma LinksOn(h: LockIds, path: seq<State>, w: Worker, rows: seq<Intent>) returns (s': State)
    requires Path(h, path) && Reachable(h, path[|path| - 1]) && At(path[|path| - 1], w).ReadLinks?
    requires LinkRows(path[|path| - 1].t.intents, At(path[|path| - 1], w).listed, rows)
    ensures Path(h, path + [s']) && Reachable(h, s') && SameStore(path[|path| - 1], s')
    ensures var pc := At(path[|path| - 1], w);
      Moves(path[|path| - 1], s', w, WriteRows(Restored(pc.listed, rows), pc.next))
  {
    s' := Links(h, path[|path| - 1], w, rows);
    PathGrows(h, path, s');
  }

  lemma WritesOn(h: LockIds, path: seq<State>, w: Worker) returns (s': State)
    requires Path(h, path) && Reachable(h, path[|path| - 1]) && At(path[|path| - 1], w).WriteRows?
    requires At(path[|path| - 1], w).rows != []
    ensures Path(h, path + [s']) && Reachable(h, s')
    ensures var s, pc := path[|path| - 1], At(path[|path| - 1], w);
      && Moves(s, s', w, WriteRows(pc.rows[1..], pc.next))
      && s'.t == s.t.(downloads := Upsert(s.t.downloads, pc.rows[0].st, s.clock))
  {
    s' := Writes(h, path[|path| - 1], w);
    PathGrows(h, path, s');
  }

  lemma Finishes(h: LockIds, s: State, w: Worker, id: IntentId) returns (s': State)
    requires Reachable(h, s) && At(s, w) == WriteRows([], Some(id))
    ensures Reachable(h, s') && SameStore(s, s') && Moves(s, s', w, Finalizing(id))
  {
    s' := Go(s, w, Finalizing(id));
    assert WriteRow(s, s', w);
    ReachQuiet(h, s, s', w);
  }

  lemma Repairs(h: LockIds, s: State, w: Worker, id: IntentId) returns (s': State)
    requires Reachable(h, s) && At(s, w) == Finalizing(id) && NoLocks(s)
    ensures Reachable(h, s') && Moves(s, s', w, Idle) && NoLocks(s')
    ensures s'.t == Bookkeeping.Finalize(s.t, id, s.clock) && s'.clock == s.clock
  {
    s' := Go(s.(t := Bookkeeping.Finalize(s.t, id, s.clock)), w, Idle);
    assert FinalizeStatement(s, s', w);
    ReachRow(h, s, s', w);
  }

  lemma Dies(h: LockIds, s: State, w: Worker) returns (s': State)
    requires Reachable(h, s) && NoLocks(s)
    ensures Reachable(h, s') && SameStore(s, s') && Moves(s, s', w, Idle)
  {
    EndsAlone(s, w);
    s' := Go(EndTx(s, w), w, Idle);
    assert Crash(s, s', w);
    ReachNext(h, s, s', w);
  }

  lemma Waits(h: LockIds, s: State, to: Time) returns (s': State)
    requires Reachable(h, s) && s.clock <= to
    ensures Reachable(h, s') && s' == s.(clock := to)
  {
    s' := s.(clock := to);
    assert Tick(s, s', to);
    assert WorldStep(s, s');
    ReachNext(h, s, s', 0);
  }

  lemma Reconciles(h: LockIds, s: State, w: Worker, id: IntentId, downloadId: string) returns (s': State)
    requires Reachable(h, s) && At(s, w).Idle?
    ensures Reachable(h, s') && SameStore(s, s') && Moves(s, s', w, Get(id, downloadId))
  {
    s' := Go(s, w, Get(id, downloadId));
    assert BeginReconcile(s, s', w, id, downloadId);
    ReachQuiet(h, s, s', w);
  }

  /** Where reading an intent leads. */
  function AfterGet(t: Tables, id: IntentId, downloadId: string): Pc {
    if id !in t.intents then Idle
    else if t.intents[id].phase.Accepted? && t.intents[id].receipt.Some? then Replay(id, t.intents[id].receipt.value)
    else Recover(id, downloadId)
  }

  lemma Gets(h: LockIds, s: State, w: Worker) returns (s': State)
    requires Reachable(h, s) && At(s, w).Get?
    ensures Reachable(h, s') && SameStore(s, s') && Moves(s, s', w, AfterGet(s.t, At(s, w).id, At(s, w).downloadId))
  {
    s' := Go(s, w, AfterGet(s.t, At(s, w).id, At(s, w).downloadId));
    assert GetIntent(s, s', w);
    ReachQuiet(h, s, s', w);
  }

  lemma Sends(h: LockIds, s: State, w: Worker, st: Status) returns (s': State)
    requires Reachable(h, s) && At(s, w).Send? && Identity.AcceptedIdentity(st.client, st.id) && Named(st) == st
    ensures Reachable(h, s') && SameStore(s, s') && Moves(s, s', w, SaveReceipt(At(s, w).row, st))
  {
    s' := Go(s.(adds := s.adds + [At(s, w).row.id]), w, SaveReceipt(At(s, w).row, st));
    assert SendAdd(s, s', w, Reply.Added(st));
    ReachQuiet(h, s, s', w);
  }

  lemma LosesReply(h: LockIds, s: State, w: Worker) returns (s': State)
    requires Reachable(h, s) && At(s, w).Send?
    ensures Reachable(h, s') && SameStore(s, s') && Moves(s, s', w, ReportUncertain(At(s, w).row))
  {
    s' := Go(s.(adds := s.adds + [At(s, w).row.id]), w, ReportUncertain(At(s, w).row));
    assert SendAdd(s, s', w, AddFailed);
    ReachQuiet(h, s, s', w);
  }

  /** A statement that writes one row and hands out or uses no lock. */
  ghost predicate OneWritten(s: State, s': State, row: Intent) {
    s'.t == s.t.(intents := s.t.intents[row.id := row]) && s'.clock == s.clock && NoLocks(s')
  }

  lemma Accepts(h: LockIds, s: State, w: Worker) returns (s': State)
    requires Reachable(h, s) && NoLocks(s) && At(s, w).SaveReceipt? && TokenAccepts(s, At(s, w).row)
    requires s.t.intents[At(s, w).row.id].id == At(s, w).row.id
    ensures Reachable(h, s') && Moves(s, s', w, ReadLinks([At(s, w).status], Some(At(s, w).row.id)))
    ensures s'.issued == s.issued
    ensures OneWritten(s, s', AcceptedRow(s.t.intents[At(s, w).row.id], At(s, w).status))
  {
    var row, status := At(s, w).row, At(s, w).status;
    s' := Go(SetRow(s, AcceptedRow(s.t.intents[row.id], status)).(receipts := s.receipts + [row.id]), w,
        ReadLinks([status], Some(row.id)));
    assert AcceptStatement(s, s', w, true);
    ReachRow(h, s, s', w);
  }

  lemma Reports(h: LockIds, s: State, w: Worker) returns (s': State)
    requires Reachable(h, s) && NoLocks(s) && At(s, w).ReportUncertain? && TokenMarks(s, At(s, w).row)
    requires s.t.intents[At(s, w).row.id].id == At(s, w).row.id
    ensures Reachable(h, s') && Moves(s, s', w, Idle) && s'.issued == s.issued
    ensures OneWritten(s, s', UncertainRow(s.t.intents[At(s, w).row.id], s.clock))
  {
    s' := Go(SetRow(s, UncertainRow(s.t.intents[At(s, w).row.id], s.clock)), w, Idle);
    assert UncertainStatement(s, s', w);
    ReachRow(h, s, s', w);
  }

  lemma Recovers(h: LockIds, s: State, w: Worker, token: Token) returns (s': State)
    requires Reachable(h, s) && NoLocks(s) && At(s, w).Recover? && token !in s.issued
    requires At(s, w).id in s.t.intents && CanRecover(s.t.intents[At(s, w).id], s.clock)
    requires s.t.intents[At(s, w).id].id == At(s, w).id
    ensures var row := Recovered(s.t.intents[At(s, w).id], token, s.clock);
      Reachable(h, s') && Moves(s, s', w, ListClient(row, At(s, w).downloadId)) && OneWritten(s, s', row)
  {
    var id, downloadId := At(s, w).id, At(s, w).downloadId;
    var row := Recovered(s.t.intents[id], token, s.clock);
    s' := Go(SetRow(s, row).(issued := s.issued + {token},
                             claims := s.claims[id := (if id in s.claims then s.claims[id] else []) + [s.clock]]),
             w, ListClient(row, downloadId));
    assert RecoverStatement(s, s', w, token);
    ReachRow(h, s, s', w);
  }

  lemma Finds(h: LockIds, s: State, w: Worker, st: Status) returns (s': State)
    requires Reachable(h, s) && At(s, w).ListClient? && Matching(At(s, w).row, At(s, w).downloadId, [st]) == [st]
    ensures Reachable(h, s') && SameStore(s, s')
    ensures Moves(s, s', w, SaveReceipt(At(s, w).row, Protocol.Claimed(At(s, w).row, st)))
  {
    var row := At(s, w).row;
    s' := Go(s, w, SaveReceipt(row, Protocol.Claimed(row, st)));
    assert ListOnce(s, s', w, row.request.endpointHash, Some([st]));
    ReachQuiet(h, s, s', w);
  }

  lemma LooksForRow(h: LockIds, s: State, w: Worker) returns (s': State)
    requires Reachable(h, s) && At(s, w).Replay?
    requires DownloadKey(At(s, w).status.client, At(s, w).status.id) !in s.t.downloads
    ensures Reachable(h, s') && Next(h, s, s') && ReplayReceipt(s, s', w) && SameStore(s, s')
    ensures Moves(s, s', w, ReadLinks([At(s, w).status], Some(At(s, w).id)))
  {
    s' := Go(s, w, ReadLinks([At(s, w).status], Some(At(s, w).id)));
    assert ReplayReceipt(s, s', w);
    ReachQuiet(h, s, s', w);
  }

  // ---- a claim that nothing stands in the way of ----

  /** No intent shares a key with this candidate, and its book and release are in order. */
  ghost predicate Clear(t: Tables, c: Candidate) {
    && (forall id :: id in t.intents ==>
        t.intents[id].request.scopeKey != c.scopeKey && t.intents[id].request.requestKey != c.requestKey)
    && BookOpen(t, c) && ReleaseKnown(t, c)
  }

  /** Worker w's claim of c is at pc; it alone holds locks. */
  ghost predicate Claims(s: State, s': State, w: Worker, pc: Pc) {
    && s'.t == s.t && s'.clock == s.clock && s'.issued == s.issued && s'.rowLocks == map[]
    && (forall l :: l in s'.locks ==> s'.locks[l] == w) && Moves(s, s', w, pc)
  }

  lemma TakesLocks(h: LockIds, s: State, w: Worker, c: Candidate) returns (s': State)
    requires Reachable(h, s) && At(s, w).Idle? && NoLocks(s)
    ensures Reachable(h, s') && Claims(s, s', w, SelectScope(c))
  {
    var s1 := Go(s, w, AskRequestLock(c));
    assert BeginClaim(s, s1, w, c);
    ReachQuiet(h, s, s1, w);
    s' := TakesBoth(h, s1, w, c);
  }

  lemma TakesBoth(h: LockIds, s: State, w: Worker, c: Candidate) returns (s': State)
    requires Reachable(h, s) && At(s, w) == AskRequestLock(c) && NoLocks(s)
    ensures Reachable(h, s') && Claims(s, s', w, SelectScope(c))
  {
    var s1 := Go(s.(locks := s.locks[h.request(c.requestKey) := w]), w, AskScopeLock(c));
    assert TakeRequestLock(h, s, s1, w);
    ReachClaim(h, s, s1, w);
    s' := TakesSecond(h, s1, w, c);
  }

  lemma TakesSecond(h: LockIds, s: State, w: Worker, c: Candidate) returns (s': State)
    requires Reachable(h, s) && Claims(s, s, w, AskScopeLock(c))
    ensures Reachable(h, s') && Claims(s, s', w, SelectScope(c))
  {
    var l := h.scope(c.scopeKey);
    s' := Go(s.(locks := s.locks[l := w]), w, SelectScope(c));
    assert l in s.locks ==> s.locks[l] == w;
    assert At(s, w) == AskScopeLock(c);
    assert TakeScopeLock(h, s, s', w);
    ReachClaim(h, s, s', w);
  }

  lemma FindsNone(h: LockIds, s: State, w: Worker, c: Candidate) returns (s': State)
    requires Reachable(h, s) && At(s, w) == SelectScope(c) && Claims(s, s, w, SelectScope(c)) && Clear(s.t, c)
    ensures Reachable(h, s') && Claims(s, s', w, RetireRequest(c, {}))
  {
    s' := Go(s, w, RetireRequest(c, {}));
    assert SelectNone(s, s', w);
    ReachClaim(h, s, s', w);
  }

  lemma RetiresNone(h: LockIds, s: State, w: Worker, c: Candidate) returns (s': State)
    requires Reachable(h, s) && Claims(s, s, w, RetireRequest(c, {})) && Clear(s.t, c)
    ensures Reachable(h, s') && Claims(s, s', w, CheckRequest(c, {}))
  {
    var more := Retirable(s, c.requestKey);
    assert more == {} && {} + more == {};
    assert s.rowLocks + (map id | id in more :: w) == map[];
    s' := Go(s, w, CheckRequest(c, {}));
    assert RetireByRequest(s, s', w);
    ReachClaim(h, s, s', w);
  }

  lemma FindsNoOther(h: LockIds, s: State, w: Worker, c: Candidate) returns (s': State)
    requires Reachable(h, s) && Claims(s, s, w, CheckRequest(c, {})) && Clear(s.t, c)
    ensures Reachable(h, s') && Claims(s, s', w, CheckBook(c, {}))
  {
    s' := Go(s, w, CheckBook(c, {}));
    assert CheckOtherRequest(s, s', w);
    ReachClaim(h, s, s', w);
  }

  lemma FindsBook(h: LockIds, s: State, w: Worker, c: Candidate) returns (s': State)
    requires Reachable(h, s) && Claims(s, s, w, CheckBook(c, {})) && Clear(s.t, c)
    ensures Reachable(h, s') && Claims(s, s', w, LoadRelease(WithFormat(s.t, c), {}))
  {
    var next := AfterBook(s.t, c, {});
    var s1 := Go(s, w, next);
    assert CheckEligible(s, s1, w);
    ReachClaim(h, s, s1, w);
    if c.wantedId == "" { s' := s1; } else { s' := FindsIdle(h, s1, w, WithFormat(s.t, c)); }
  }

  lemma FindsIdle(h: LockIds, s: State, w: Worker, c: Candidate) returns (s': State)
    requires Reachable(h, s) && Claims(s, s, w, CheckActive(c, {})) && !BookActive(s.t, c.wantedId)
    ensures Reachable(h, s') && Claims(s, s', w, LoadRelease(c, {}))
  {
    s' := Go(s, w, LoadRelease(c, {}));
    assert CheckNoActive(s, s', w);
    ReachClaim(h, s, s', w);
  }

  lemma FindsRelease(h: LockIds, s: State, w: Worker, c: Candidate) returns (s': State)
    requires Reachable(h, s) && Clear(s.t, c) && Claims(s, s, w, LoadRelease(WithFormat(s.t, c), {}))
    ensures Reachable(h, s') && Claims(s, s', w, InsertIntent(Prepared(s.t, c), {}))
  {
    s' := Go(s, w, InsertIntent(Prepared(s.t, c), {}));
    assert LoadSelected(s, s', w);
    ReachClaim(h, s, s', w);
  }

  lemma EndsAlone(s: State, w: Worker)
    requires s.rowLocks == map[] && forall l :: l in s.locks ==> s.locks[l] == w
    ensures EndTx(s, w) == s.(locks := map[], rowLocks := map[])
  {
    assert forall l :: l !in EndTx(s, w).locks;
    assert forall r :: r !in EndTx(s, w).rowLocks;
    assert EndTx(s, w).locks == map[];
  }

  lemma Commits(h: LockIds, s: State, w: Worker, c: Candidate, id: IntentId, token: Token, required: bool)
      returns (s': State)
    requires Reachable(h, s) && Claims(s, s, w, InsertIntent(c, {})) && id !in s.t.intents && token !in s.issued
    ensures var row := NewIntent(c, id, token, s.clock, s.clock, required);
      Reachable(h, s') && Moves(s, s', w, Send(row)) && OneWritten(s, s', row) && s'.issued == s.issued + {token}
  {
    var row := NewIntent(c, id, token, s.clock, s.clock, required);
    assert Commit(s.t.intents, {}, row) == s.t.intents[id := row];
    EndsAlone(s, w);
    s' := Go(EndTx(s, w).(t := s.t.(intents := s.t.intents[id := row]), issued := s.issued + {token},
        claims := s.claims[id := [s.clock]]),
             w, Send(row));
    assert CommitClaim(s, s', w, id, token, s.clock, required);
    ReachNext(h, s, s', w);
  }

  /** From an idle worker to a committed claim, about to send. */
  lemma Granted(h: LockIds, s: State, w: Worker, c: Candidate, id: IntentId, token: Token, required: bool)
      returns (s': State)
    requires Reachable(h, s) && At(s, w).Idle? && NoLocks(s) && Clear(s.t, c) && id !in s.t.intents
    requires token !in s.issued
    ensures var row := NewIntent(Prepared(s.t, c), id, token, s.clock, s.clock, required);
      Reachable(h, s') && Moves(s, s', w, Send(row)) && OneWritten(s, s', row) && s'.issued == s.issued + {token}
  {
    s' := TakesLocks(h, s, w, c);
    s' := FindsNone(h, s', w, c);
    s' := RetiresNone(h, s', w, c);
    s' := FindsNoOther(h, s', w, c);
    s' := FindsBook(h, s', w, c);
    s' := FindsRelease(h, s', w, c);
    s' := Commits(h, s', w, Prepared(s.t, c), id, token, required);
  }
}
