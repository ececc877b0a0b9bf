/**
  Steps that neither send, nor read links, nor write a download row: everything except
  SendAdd, LinkQuery, WriteRow and a committing claim. They leave the Add calls, the
  notes and every download's tags as they were, put nobody at a send or a write, and
  lose no intent row.
 */
module CalmSteps {
  import opened Text
  import opened Records
  import opened Downloads
  import opened Protocol
  import opened Histories
  import Bookkeeping

  /** No Add, no worker newly at Send or at WriteRows, no row lost, and no download's tags or notes changed. */
  ghost predicate Calm(s: State, s': State) {
    && s'.adds == s.adds && s'.noted == s.noted
    && (forall w :: At(s', w).Send? || At(s', w).WriteRows? ==> At(s', w) == At(s, w))
    && (forall id :: id in s.t.intents ==> id in s'.t.intents)
    && (forall k :: k in s.t.downloads ==> k in s'.t.downloads && s'.t.downloads[k].tags == s.t.downloads[k].tags)
  }

  lemma MoveIsCalm(s: State, s': State, w: Worker)
    requires s'.workers == s.workers[w := At(s', w)] && !At(s', w).Send? && !At(s', w).WriteRows?
    requires s'.adds == s.adds && s'.noted == s.noted && s'.t.downloads == s.t.downloads
    requires forall id :: id in s.t.intents ==> id in s'.t.intents
    ensures Calm(s, s')
  {}

  lemma ClaimIsCalm(h: LockIds, s: State, s': State, w: Worker)
    requires ClaimStep(h, s, s', w)
    ensures Calm(s, s')
  {
    ClaimStepIsQuiet(h, s, s', w);
  }

  lemma ListIsCalm(s: State, s': State, w: Worker, e: string, listed: Option<seq<Status>>)
    requires ListOnce(s, s', w, e, listed)
    ensures Calm(s, s')
  {
    MoveIsCalm(s, s', w);
  }

  lemma ReadsAreCalm(s: State, s': State, w: Worker)
    requires GetIntent(s, s', w) || ReplayReceipt(s, s', w)
    ensures Calm(s, s')
  {
    MoveIsCalm(s, s', w);
  }

  ghost predicate Active(s: State, s': State, w: Worker) {
    (exists reply :: SendAdd(s, s', w, reply)) || (exists rows :: LinkQuery(s, s', w, rows)) || WriteRow(s, s', w)
  }

  lemma GoIsCalm(s: State, w: Worker, pc: Pc)
    requires !pc.Send? && !pc.WriteRows?
    ensures Calm(s, Go(s, w, pc))
  {}

  lemma BeginningIsCalm(s: State, s': State, w: Worker)
    requires (exists c :: BeginClaim(s, s', w, c)) || (exists id, d :: BeginReconcile(s, s', w, id, d))
        || (exists listed :: BeginPoll(s, s', w, listed))
    ensures Calm(s, s')
  {
    if c :| BeginClaim(s, s', w, c) { GoIsCalm(s, w, AskRequestLock(c)); }
    else if id, d :| BeginReconcile(s, s', w, id, d) { GoIsCalm(s, w, Get(id, d)); }
    else { var listed :| BeginPoll(s, s', w, listed); GoIsCalm(s, w, ReadLinks(listed, None)); }
  }

  lemma QuietIsCalm(s: State, s': State, w: Worker)
    requires QuietStep(s, s', w) && !Active(s, s', w)
    ensures Calm(s, s')
  {
    if e, listed :| ListOnce(s, s', w, e, listed) { ListIsCalm(s, s', w, e, listed); }
    else if GetIntent(s, s', w) || ReplayReceipt(s, s', w) { ReadsAreCalm(s, s', w); }
    else { BeginningIsCalm(s, s', w); }
  }

  lemma AcceptIsCalm(s: State, s': State, w: Worker, ok: bool)
    requires AcceptStatement(s, s', w, ok)
    ensures Calm(s, s')
  {
    MoveIsCalm(s, s', w);
  }

  lemma UncertainIsCalm(s: State, s': State, w: Worker)
    requires UncertainStatement(s, s', w)
    ensures Calm(s, s')
  {
    MoveIsCalm(s, s', w);
  }

  lemma RecoverIsCalm(s: State, s': State, w: Worker, token: Token)
    requires RecoverStatement(s, s', w, token)
    ensures Calm(s, s')
  {
    MoveIsCalm(s, s', w);
  }

  lemma FinalizeIsCalm(s: State, s': State, w: Worker)
    requires Bookkeeping.Keyed(s.t) && FinalizeStatement(s, s', w)
    ensures Calm(s, s')
  {}

  lemma RowStepIsCalm(s: State, s': State, w: Worker)
    requires Bookkeeping.Keyed(s.t) && RowStep(s, s', w)
    ensures Calm(s, s')
  {
    if ok :| AcceptStatement(s, s', w, ok) { AcceptIsCalm(s, s', w, ok); }
    else if UncertainStatement(s, s', w) { UncertainIsCalm(s, s', w); }
    else if token :| RecoverStatement(s, s', w, token) { RecoverIsCalm(s, s', w, token); }
    else if FinalizeStatement(s, s', w) { FinalizeIsCalm(s, s', w); }
    else { var id :| OperatorRelease(s, s', id); }
  }

  lemma MarkIsCalm(s: State, s': State, k: DownloadKey, m: Mark)
    requires MarkDownload(s, s', k, m)
    ensures Calm(s, s')
  {
    assert ApplyMark(s.t.downloads[k], m, s.clock).tags == s.t.downloads[k].tags;
  }

  lemma ElsewhereIsCalm(s: State, s': State, wanted: map<string, Wanted>, releases: map<string, Release>, kind: string)
    requires Elsewhere(s, s', wanted, releases, kind)
    ensures Calm(s, s')
  {}

  lemma WorldIsCalm(s: State, s': State)
    requires WorldStep(s, s')
    ensures Calm(s, s')
  {
    if k, m :| MarkDownload(s, s', k, m) { MarkIsCalm(s, s', k, m); }
    else if wanted, releases, kind :| Elsewhere(s, s', wanted, releases, kind) {
      ElsewhereIsCalm(s, s', wanted, releases, kind);
    }
    else { var to :| Tick(s, s', to); }
  }

  lemma StepIsCalm(h: LockIds, s: State, s': State, w: Worker)
    requires Bookkeeping.Keyed(s.t) && Step(h, s, s', w) && !Active(s, s', w)
    ensures Calm(s, s') || exists id, token, began, required :: CommitClaim(s, s', w, id, token, began, required)
  {
    if ClaimStep(h, s, s', w) { ClaimIsCalm(h, s, s', w); }
    else if id, token, began, required :| CommitClaim(s, s', w, id, token, began, required) {}
    else if QuietStep(s, s', w) { QuietIsCalm(s, s', w); }
    else if RowStep(s, s', w) { RowStepIsCalm(s, s', w); }
    else if WorldStep(s, s') { WorldIsCalm(s, s'); }
    else { assert Crash(s, s', w); MoveIsCalm(s, s', w); }
  }
}
