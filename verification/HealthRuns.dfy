/**
  Any number of callers checking one connection: at most one probes while the others
  wait for it. The steps are the critical sections; the probe happens between two of them.
 */
module HealthRuns {
  import opened Text
  import opened Records
  import opened Health

  // ---- any number of callers ----

  datatype At = Idle | Waiting(channel: Channel) | Probing(channel: Channel, since: Time)

  datatype Record = Record(probe: Probe, at: Time)

  /** A probe that was started, the channel made for it, and how many records there were then. */
  datatype Start = Start(channel: Channel, at: Time, records: nat)

  datatype State = State(
    clock: Time, latest: Evidence, running: Option<Channel>, callers: map<Caller, At>, next: Channel,
    closes: seq<Channel>,     // every close, in order
    records: seq<Record>,     // every recorded probe, in order
    starts: seq<Start>)       // every probe started, in order

  function Of(s: State, c: Caller): At {
    if c in s.callers then s.callers[c] else Idle
  }

  function Put(s: State, c: Caller, a: At): State {
    s.(callers := s.callers[c := a])
  }

  ghost predicate BeginStep(s: State, s': State, c: Caller, configured: bool, cancelled: bool) {
    && Of(s, c).Idle?
    && s' ==
       if !MayProbe(s.latest, configured, cancelled, s.clock) then s
       else if s.running.Some? then Put(s, c, Waiting(s.running.value))
       else Put(s.(running := Some(s.next), next := s.next + 1,
           starts := s.starts + [Start(s.next, s.clock, |s.records|)]),
                c, Probing(s.next, s.clock))
  }

  /** A waiter goes on once its channel is closed or its own context is done. */
  ghost predicate WakeStep(s: State, s': State, c: Caller, cancelled: bool) {
    && Of(s, c).Waiting? && (cancelled || Of(s, c).channel in s.closes)
    && s' == Put(s, c, Idle)
  }

  ghost predicate FinishStep(s: State, s': State, c: Caller, probe: Probe, cancelled: bool) {
    && Of(s, c).Probing?
    && var ended := Put(s.(running := None, closes := s.closes + [Of(s, c).channel]), c, Idle);
       s' == if cancelled then ended
             else ended.(latest := Recorded(s.latest, probe, s.clock), records := s.records + [Record(probe, s.clock)])
  }

  ghost predicate TickStep(s: State, s': State, to: Time) {
    s.clock <= to && s' == s.(clock := to)
  }

  ghost predicate Next(s: State, s': State) {
    || (exists c, configured, cancelled :: BeginStep(s, s', c, configured, cancelled))
    || (exists c, cancelled :: WakeStep(s, s', c, cancelled))
    || (exists c, probe, cancelled :: FinishStep(s, s', c, probe, cancelled))
    || (exists to :: TickStep(s, s', to))
  }

  ghost predicate Init(s: State) {
    && s.latest == NOTHING && s.running.None? && s.callers == map[]
    && s.closes == [] && s.records == [] && s.starts == []
  }

  ghost predicate NextAt(run: seq<State>, k: int)
    requires 0 <= k < |run| - 1
  {
    Next(run[k], run[k + 1])
  }

  ghost predicate Run(run: seq<State>) {
    && run != [] && Init(run[0])
    && forall k {:trigger NextAt(run, k)} :: 0 <= k < |run| - 1 ==> NextAt(run, k)
  }

  // ---- one probe at a time ----

  /**
    The running channel belongs to the one probing caller; a channel is closed at most once;
    no waiter is forgotten.
   */
  ghost predicate Single(s: State) {
    && (forall c :: Of(s, c).Probing? ==> s.running == Some(Of(s, c).channel))
    && (forall a, b :: Of(s, a).Probing? && Of(s, b).Probing? ==> a == b)
    && (s.running.Some? ==> exists c :: Of(s, c).Probing?)
    && (forall i :: 0 <= i < |s.closes| ==> s.closes[i] < s.next)
    && (s.running.Some? ==> s.running.value < s.next && s.running.value !in s.closes)
    && (forall i, j :: 0 <= i < j < |s.closes| ==> s.closes[i] != s.closes[j])
    && (forall c :: Of(s, c).Waiting? ==> s.running == Some(Of(s, c).channel) || Of(s, c).channel in s.closes)
  }

  lemma BeginKeepsSingle(s: State, s': State, c: Caller, configured: bool, cancelled: bool)
    requires Single(s) && BeginStep(s, s', c, configured, cancelled)
    ensures Single(s')
  {
    if s' != s {
      assert forall x :: x != c ==> Of(s', x) == Of(s, x);
      if s.running.None? { assert Of(s', c).Probing?; }
    }
  }

  lemma FinishKeepsSingle(s: State, s': State, c: Caller, probe: Probe, cancelled: bool)
    requires Single(s) && FinishStep(s, s', c, probe, cancelled)
    ensures Single(s')
  {
    var ch := Of(s, c).channel;
    assert forall x :: x != c ==> Of(s', x) == Of(s, x);
    assert Of(s', c) == Idle && s'.closes == s.closes + [ch];
    forall x | Of(s', x).Waiting? ensures Of(s', x).channel in s'.closes {
      assert Of(s, x).channel == ch || Of(s, x).channel in s.closes;
      assert s'.closes[|s.closes|] == ch;
    }
  }

  lemma WakeKeepsSingle(s: State, s': State, c: Caller, cancelled: bool)
    requires Single(s) && WakeStep(s, s', c, cancelled)
    ensures Single(s')
  {
    assert forall x :: x != c ==> Of(s', x) == Of(s, x);
    assert forall x :: Of(s, x).Probing? ==> Of(s', x) == Of(s, x);
  }

  lemma TickKeepsSingle(s: State, s': State, to: Time)
    requires Single(s) && TickStep(s, s', to)
    ensures Single(s')
  {
    assert forall x :: Of(s', x) == Of(s, x);
  }

  lemma StepKeepsSingle(s: State, s': State)
    requires Single(s) && Next(s, s')
    ensures Single(s')
  {
    if c, configured, cancelled :| BeginStep(s, s', c, configured, cancelled) {
      BeginKeepsSingle(s, s', c, configured, cancelled);
    } else if c, cancelled :| WakeStep(s, s', c, cancelled) {
      WakeKeepsSingle(s, s', c, cancelled);
    } else if c, probe, cancelled :| FinishStep(s, s', c, probe, cancelled) {
      FinishKeepsSingle(s, s', c, probe, cancelled);
    } else {
      var to :| TickStep(s, s', to);
      TickKeepsSingle(s, s', to);
    }
  }

  /** Of the channels made so far, in order of making, all but the running one are closed: each once, and no others. */
  ghost predicate Settled(s: State) {
    && |s.starts| == |s.closes| + (if s.running.Some? then 1 else 0)
    && (forall n :: 0 <= n < |s.closes| ==> s.closes[n] == s.starts[n].channel)
    && (s.running.Some? ==> s.starts[|s.closes|].channel == s.running.value)
  }

  lemma StepKeepsSettled(s: State, s': State)
    requires Single(s) && Settled(s) && Next(s, s')
    ensures Settled(s')
  {
    if c, configured, cancelled :| BeginStep(s, s', c, configured, cancelled) {}
    else if c, cancelled :| WakeStep(s, s', c, cancelled) {}
    else if c, probe, cancelled :| FinishStep(s, s', c, probe, cancelled) {
      assert s.running == Some(Of(s, c).channel);
    }
  }

  // ---- what is stored, and when ----

  function Fold(records: seq<Record>): Evidence {
    if records == [] then NOTHING
    else
      var last := records[|records| - 1];
      Recorded(Fold(records[..|records| - 1]), last.probe, last.at)
  }

  ghost predicate Spaced(records: seq<Record>) {
    forall i :: 0 < i < |records| ==> records[i].at - records[i - 1].at >= SPACING
  }

  /** A probe was due: 15 s after the last record and not before the time that record asked for. */
  ghost predicate Due(records: seq<Record>, start: Start) {
    && start.records <= |records|
    && (start.records > 0 ==>
         var last := records[start.records - 1];
         start.at - last.at >= SPACING && (last.probe.retryAfter.Some? ==> start.at >= last.probe.retryAfter.value))
  }

  ghost predicate Timed(s: State) {
    && s.latest == Fold(s.records)
    && Spaced(s.records)
    && (s.records != [] ==> s.records[|s.records| - 1].at <= s.clock)
    && (forall n :: 0 <= n < |s.starts| ==> Due(s.records, s.starts[n]))
    && (forall c :: Of(s, c).Probing? ==>
         Of(s, c).since <= s.clock && Due(s.records, Start(Of(s, c).channel, Of(s, c).since, |s.records|)))
  }

  lemma BeginKeepsTimed(s: State, s': State, c: Caller, configured: bool, cancelled: bool)
    requires Timed(s) && BeginStep(s, s', c, configured, cancelled)
    ensures Timed(s')
  {
    if MayProbe(s.latest, configured, cancelled, s.clock) {
      assert forall x :: x != c ==> Of(s', x) == Of(s, x);
    }
  }

  lemma StillDue(records: seq<Record>, r: Record, start: Start)
    requires Due(records, start)
    ensures Due(records + [r], start)
  {}

  lemma FinishKeepsTimed(s: State, s': State, c: Caller, probe: Probe, cancelled: bool)
    requires Single(s) && Timed(s) && FinishStep(s, s', c, probe, cancelled)
    ensures Timed(s')
  {
    NoneProbing(s, s', c, probe, cancelled);
    if !cancelled {
      var r := Record(probe, s.clock);
      forall k | 0 <= k < |s'.starts| ensures Due(s'.records, s'.starts[k]) { StillDue(s.records, r, s.starts[k]); }
      SpacedOn(s, r);
    }
  }

  lemma NoneProbing(s: State, s': State, c: Caller, probe: Probe, cancelled: bool)
    requires Single(s) && FinishStep(s, s', c, probe, cancelled)
    ensures forall x :: !Of(s', x).Probing?
  {
    assert forall x :: x != c ==> Of(s', x) == Of(s, x);
  }

  /** A record made by a probe that was due. */
  lemma SpacedOn(s: State, r: Record)
    requires Timed(s) && r.at == s.clock && exists c :: Of(s, c).Probing?
    ensures Spaced(s.records + [r]) && Fold(s.records + [r]) == Recorded(s.latest, r.probe, r.at)
  {
    var c :| Of(s, c).Probing?;
    assert (s.records + [r])[..|s.records|] == s.records;
    assert Due(s.records, Start(Of(s, c).channel, Of(s, c).since, |s.records|));
  }

  lemma WakeKeepsTimed(s: State, s': State, c: Caller, cancelled: bool)
    requires Timed(s) && WakeStep(s, s', c, cancelled)
    ensures Timed(s')
  {
    assert forall x :: x != c ==> Of(s', x) == Of(s, x);
  }

  lemma TickKeepsTimed(s: State, s': State, to: Time)
    requires Timed(s) && TickStep(s, s', to)
    ensures Timed(s')
  {
    assert forall x :: Of(s', x) == Of(s, x);
  }

  lemma StepKeepsTimed(s: State, s': State)
    requires Single(s) && Timed(s) && Next(s, s')
    ensures Timed(s')
  {
    if c, configured, cancelled :| BeginStep(s, s', c, configured, cancelled) {
      BeginKeepsTimed(s, s', c, configured, cancelled);
    } else if c, cancelled :| WakeStep(s, s', c, cancelled) {
      WakeKeepsTimed(s, s', c, cancelled);
    } else if c, probe, cancelled :| FinishStep(s, s', c, probe, cancelled) {
      FinishKeepsTimed(s, s', c, probe, cancelled);
    } else {
      var to :| TickStep(s, s', to);
      TickKeepsTimed(s, s', to);
    }
  }

  // ---- over whole runs ----

  lemma {:induction false} RunKeeps(run: seq<State>, k: nat)
    requires Run(run) && k < |run|
    ensures Single(run[k]) && Settled(run[k]) && Timed(run[k])
  {
    if k > 0 {
      RunKeeps(run, k - 1);
      assert NextAt(run, k - 1);
      StepKeepsSingle(run[k - 1], run[k]);
      StepKeepsSettled(run[k - 1], run[k]);
      StepKeepsTimed(run[k - 1], run[k]);
    }
  }

  /** However callers come, wait and cancel: at most one probe runs, and no done channel is ever closed twice. */
  lemma OneProbeAtATime(run: seq<State>, k: nat, a: Caller, b: Caller)
    requires Run(run) && k < |run|
    ensures Of(run[k], a).Probing? && Of(run[k], b).Probing? ==> a == b
    ensures forall i, j :: 0 <= i < j < |run[k].closes| ==> run[k].closes[i] != run[k].closes[j]
    ensures Of(run[k], a).Waiting? ==>
        run[k].running == Some(Of(run[k], a).channel) || Of(run[k], a).channel in run[k].closes
  {
    RunKeeps(run, k);
  }

  /** How often a channel was closed. */
  function Closings(closes: seq<Channel>, channel: Channel): nat {
    multiset(closes)[channel]
  }

  lemma ClosedOnceAt(closes: seq<Channel>, n: nat)
    requires n < |closes| && forall i, j :: 0 <= i < j < |closes| ==> closes[i] != closes[j]
    ensures Closings(closes, closes[n]) == 1
  {
    assert closes == closes[..n] + [closes[n]] + closes[n + 1..];
  }

  /**
    Every done channel is closed exactly once, when its probe ends: in any state each one
    made is either the running one, not closed yet, or closed once.
   */
  lemma ChannelsCloseExactlyOnce(run: seq<State>, k: nat, n: nat)
    requires Run(run) && k < |run| && n < |run[k].starts|
    ensures var s, channel := run[k], run[k].starts[n].channel;
      Closings(s.closes, channel) == if s.running == Some(channel) then 0 else 1
    ensures |run[k].starts| == |run[k].closes| + if run[k].running.Some? then 1 else 0
    ensures forall i :: 0 <= i < |run[k].closes| ==> run[k].closes[i] == run[k].starts[i].channel
  {
    RunKeeps(run, k);
    var s := run[k];
    if n < |s.closes| { ClosedOnceAt(s.closes, n); }
  }

  lemma {:induction false} SpacedSpan(records: seq<Record>, i: nat, j: nat)
    requires Spaced(records) && i <= j < |records|
    ensures records[j].at - records[i].at >= SPACING * (j - i)
    decreases j
  {
    if i < j {
      SpacedSpan(records, i, j - 1);
      assert records[j].at - records[j - 1].at >= SPACING;
    }
  }

  /** In any window of a run there are at most one plus its length over 15 seconds recorded checks. */
  lemma RecordsAreRateLimited(run: seq<State>, k: nat, i: nat, j: nat)
    requires Run(run) && k < |run| && i <= j < |run[k].records|
    ensures j - i + 1 <= 1 + (run[k].records[j].at - run[k].records[i].at) / (15 * SECOND)
  {
    RunKeeps(run, k);
    SpacedSpan(run[k].records, i, j);
  }

  /** No probe ever starts within 15 seconds of the last recorded check, or before the retry-after it recorded. */
  lemma ProbesAreDue(run: seq<State>, k: nat, n: nat)
    requires Run(run) && k < |run| && n < |run[k].starts|
    ensures var start := run[k].starts[n];
      && start.records <= |run[k].records|
      && (start.records > 0 ==>
            var last := run[k].records[start.records - 1];
            && start.at >= last.at + 15 * SECOND
            && (last.probe.retryAfter.Some? ==> start.at >= last.probe.retryAfter.value))
  {
    RunKeeps(run, k);
    assert Due(run[k].records, run[k].starts[n]);
  }

  lemma FoldEndsWith(records: seq<Record>)
    ensures records == [] ==> Fold(records).lastCheckedAt.None? && Fold(records).retryAfter.None?
    ensures records != [] ==>
      var last, e := records[|records| - 1], Fold(records);
      && e.status == last.probe.status && e.message == last.probe.message
      && e.retryAfter == last.probe.retryAfter && e.lastCheckedAt == Some(last.at)
  {}

  /**
    And a check that may go to the network does: a caller's first critical section starts a
    probe exactly when the connection is configured, the caller is still there, nobody else is
    probing, and the last recorded check is 15 seconds old and its retry-after has passed.
   */
  lemma ProbeStartsExactly(run: seq<State>, k: nat, c: Caller, configured: bool, cancelled: bool)
    requires Run(run) && 0 < k < |run| && BeginStep(run[k - 1], run[k], c, configured, cancelled)
    ensures var s := run[k - 1];
      (|run[k].starts| > |s.starts|
       <==>
         && configured && !cancelled && s.running.None?
         && (s.records != [] ==>
               var last := s.records[|s.records| - 1];
               && s.clock >= last.at + 15 * SECOND
               && (last.probe.retryAfter.Some? ==> s.clock >= last.probe.retryAfter.value)))
    ensures |run[k].starts| > |run[k - 1].starts| ==> Of(run[k], c).Probing? && run[k].running.Some?
  {
    RunKeeps(run, k - 1);
    FoldEndsWith(run[k - 1].records);
  }

  /** A probe that ends stops and closes its own channel; it is recorded, at that moment, unless it was cancelled. */
  lemma FinishRecords(s: State, s': State, c: Caller, probe: Probe, cancelled: bool)
    requires FinishStep(s, s', c, probe, cancelled)
    ensures s'.running.None? && s'.closes == s.closes + [Of(s, c).channel] && Of(s', c).Idle?
    ensures cancelled ==> s'.records == s.records && s'.latest == s.latest
    ensures !cancelled ==>
      && s'.records == s.records + [Record(probe, s.clock)]
      && s'.latest.status == probe.status && s'.latest.lastCheckedAt == Some(s.clock)
  {}

  lemma RunGoesOn(run: seq<State>, s': State)
    requires Run(run) && Next(run[|run| - 1], s')
    ensures Run(run + [s']) && (run + [s'])[|run|] == s'
  {
    var longer := run + [s'];
    forall k {:trigger NextAt(longer, k)} | 0 <= k < |longer| - 1 ensures NextAt(longer, k) {
      if k < |run| - 1 { assert NextAt(run, k); }
    }
  }

  /** An idle caller can always begin a check. */
  lemma CheckBegins(run: seq<State>, c: Caller, configured: bool, cancelled: bool) returns (s': State)
    requires Run(run) && Of(run[|run| - 1], c).Idle?
    ensures BeginStep(run[|run| - 1], s', c, configured, cancelled) && Run(run + [s'])
  {
    var s := run[|run| - 1];
    s' := if !MayProbe(s.latest, configured, cancelled, s.clock) then s
      else if s.running.Some? then Put(s, c, Waiting(s.running.value))
      else Put(s.(running := Some(s.next), next := s.next + 1,
                  starts := s.starts + [Start(s.next, s.clock, |s.records|)]),
               c, Probing(s.next, s.clock));
    assert BeginStep(s, s', c, configured, cancelled);
    RunGoesOn(run, s');
  }

  lemma ProbeCanEnd(run: seq<State>, c: Caller, probe: Probe) returns (s': State)
    requires Run(run) && Of(run[|run| - 1], c).Probing?
    ensures Run(run + [s']) && FinishStep(run[|run| - 1], s', c, probe, false)
  {
    var s := run[|run| - 1];
    var ended := Put(s.(running := None, closes := s.closes + [Of(s, c).channel]), c, Idle);
    s' := ended.(latest := Recorded(s.latest, probe, s.clock), records := s.records + [Record(probe, s.clock)]);
    assert FinishStep(s, s', c, probe, false);
    RunGoesOn(run, s');
  }

  /** A waiter goes on exactly when the probe it waits for has ended or it gives up itself. */
  lemma WaiterCanGo(run: seq<State>, c: Caller, cancelled: bool) returns (s': State)
    requires Run(run) && Of(run[|run| - 1], c).Waiting?
    ensures WakeStep(run[|run| - 1], s', c, cancelled) <==>
      cancelled || Of(run[|run| - 1], c).channel in run[|run| - 1].closes
    ensures WakeStep(run[|run| - 1], s', c, cancelled) ==> Run(run + [s'])
  {
    s' := Put(run[|run| - 1], c, Idle);
    if WakeStep(run[|run| - 1], s', c, cancelled) { RunGoesOn(run, s'); }
  }

  /**
    Nobody is left waiting: from any state of any run a probing caller can end its probe, and a
    waiting one is free, without giving up, once the one probe it waits for has ended.
   */
  lemma NobodyIsStuck(run: seq<State>, c: Caller, probe: Probe) returns (more: seq<State>)
    requires Run(run) && !Of(run[|run| - 1], c).Idle?
    ensures Run(run + more) && 1 <= |more| <= 2 && Of((run + more)[|run + more| - 1], c).Idle?
    ensures Of(run[|run| - 1], c).Probing? ==> |more| == 1 && FinishStep(run[|run| - 1], more[0], c, probe, false)
    ensures Of(run[|run| - 1], c).Waiting? ==>
      WakeStep((run + more)[|run + more| - 2], (run + more)[|run + more| - 1], c, false)
  {
    var s := run[|run| - 1];
    RunKeeps(run, |run| - 1);
    if Of(s, c).Probing? {
      var s' := ProbeCanEnd(run, c, probe);
      more := [s'];
    } else if Of(s, c).channel in s.closes {
      var s' := WaiterCanGo(run, c, false);
      more := [s'];
    } else {
      var d :| Of(s, d).Probing?;
      var s1 := ProbeCanEnd(run, d, probe);
      assert s1.closes[|s.closes|] == Of(s, c).channel && Of(s1, c) == Of(s, c);
      var s2 := WaiterCanGo(run + [s1], c, false);
      more := [s1, s2];
      assert run + more == run + [s1] + [s2];
    }
  }

  /** This record is of the kind and no later one is. */
  ghost predicate LastOf(records: seq<Record>, holds: Record -> bool, i: int) {
    0 <= i < |records| && holds(records[i]) && forall j :: i < j < |records| ==> !holds(records[j])
  }

  /** The time of the newest record of a kind, if there is one. */
  ghost predicate NewestAt(records: seq<Record>, holds: Record -> bool, at: Option<Time>) {
    match at
    case None => forall i :: 0 <= i < |records| ==> !holds(records[i])
    case Some(t) => exists i :: LastOf(records, holds, i) && records[i].at == t
  }

  function Ready(): Record -> bool { (r: Record) => r.probe.status == "ready" }

  function Versioned(): Record -> bool { (r: Record) => r.probe.version != "" }

  lemma NewestStep(init: seq<Record>, last: Record, holds: Record -> bool, at: Option<Time>)
    requires NewestAt(init, holds, at)
    ensures NewestAt(init + [last], holds, if holds(last) then Some(last.at) else at)
  {
    var all := init + [last];
    assert forall i :: 0 <= i < |init| ==> all[i] == init[i];
    if holds(last) {
      assert LastOf(all, holds, |init|);
    } else if at.Some? {
      var i :| LastOf(init, holds, i) && init[i].at == at.value;
      assert LastOf(all, holds, i);
    }
  }

  lemma {:induction false} FoldIsNewest(records: seq<Record>)
    ensures NewestAt(records, Ready(), Fold(records).lastSuccessAt)
    ensures NewestAt(records, Versioned(), Fold(records).lastVersionAt)
    ensures Fold(records).version != "" <==> Fold(records).lastVersionAt.Some?
    ensures forall i :: LastOf(records, Versioned(), i) ==> Fold(records).version == records[i].probe.version
  {
    if records != [] {
      var init, last := records[..|records| - 1], records[|records| - 1];
      FoldIsNewest(init);
      assert records == init + [last];
      NewestStep(init, last, Ready(), Fold(init).lastSuccessAt);
      NewestStep(init, last, Versioned(), Fold(init).lastVersionAt);
      forall i | LastOf(records, Versioned(), i) ensures Fold(records).version == records[i].probe.version {
        if i < |init| {
          assert !Versioned()(records[|init|]);
          assert forall j :: 0 <= j < |init| ==> init[j] == records[j];
          assert LastOf(init, Versioned(), i);
        }
      }
    }
  }

  /**
    The stored evidence is the whole history of uncancelled probes: the last result, the
    newest success, the newest version.
   */
  lemma EvidenceIsHistory(run: seq<State>, k: nat)
    requires Run(run) && k < |run|
    ensures run[k].latest == Fold(run[k].records)
    ensures run[k].records != [] ==>
      var last, e := run[k].records[|run[k].records| - 1], run[k].latest;
      && e.status == last.probe.status && e.message == last.probe.message
      && e.retryAfter == last.probe.retryAfter && e.lastCheckedAt == Some(last.at)
    ensures NewestAt(run[k].records, Ready(), run[k].latest.lastSuccessAt)
    ensures NewestAt(run[k].records, Versioned(), run[k].latest.lastVersionAt)
    ensures forall i :: LastOf(run[k].records, Versioned(), i) ==>
        run[k].latest.version == run[k].records[i].probe.version
  {
    RunKeeps(run, k);
    FoldIsNewest(run[k].records);
    FoldEndsWith(run[k].records);
  }

  /**
    A snapshot says 'ready' exactly when it should: the adapter is configured and the newest
    record is a ready one at most ten minutes old.
   */
  lemma ReadyIsCurrent(run: seq<State>, k: nat, configured: bool)
    requires Run(run) && k < |run|
    ensures var records := run[k].records;
      Shown(run[k].latest, run[k].running.Some?, configured, run[k].clock).evidence.status == "ready" <==>
        && configured && records != [] && records[|records| - 1].probe.status == "ready"
        && run[k].clock - records[|records| - 1].at <= 600 * SECOND
  {
    RunKeeps(run, k);
    ShownReady(run[k].latest, run[k].running.Some?, configured, run[k].clock);
    assert "ready" != "";
  }
}
