/**
  Connection health: one observation shared by any number of callers, and the critical
  sections in which a check decides, answers, waits or records.
 */
module Health {
  import opened Text
  import opened Records

  type Caller = nat
  type Channel = nat

  const SPACING: int := 15 * SECOND
  const FRESH_FOR: int := 600 * SECOND

  const NOT_CONFIGURED: string := "Configure the integration endpoint and required credentials."
  const NOT_CHECKED: string := "Configured; connection has not been checked."
  const TOO_OLD: string := "The last connection check is older than 10 minutes. Check again for current evidence."

  /** What a probe reports. */
  datatype Probe = Probe(status: string, message: string, version: string, retryAfter: Option<Time>)

  /** The stored evidence: the last recorded probe, when it was, and what earlier ones left. */
  datatype Evidence = Evidence(
    status: string, message: string, version: string, retryAfter: Option<Time>,
    lastCheckedAt: Option<Time>, lastSuccessAt: Option<Time>, lastVersionAt: Option<Time>)

  const NOTHING := Evidence("", "", "", None, None, None, None)

  datatype Snapshot = Snapshot(evidence: Evidence, checking: bool, freshness: string, observedStatus: string)

  // ---- the critical sections ----

  /**
    A check goes to the network only if it is configured, wanted, 15 s after the last record
    and past any retry-after.
   */
  predicate MayProbe(e: Evidence, configured: bool, cancelled: bool, now: Time) {
    && configured && !cancelled
    && (e.lastCheckedAt.Some? ==> now - e.lastCheckedAt.value >= SPACING)
    && (e.retryAfter.Some? ==> now >= e.retryAfter.value)
  }

  function Recorded(e: Evidence, p: Probe, at: Time): Evidence {
    Evidence(p.status, p.message,
             if p.version != "" then p.version else e.version,
             p.retryAfter, Some(at),
             if p.status == "ready" then Some(at) else e.lastSuccessAt,
             if p.version != "" then Some(at) else e.lastVersionAt)
  }

  function Shown(e: Evidence, running: bool, configured: bool, now: Time): Snapshot {
    if !configured then
      Snapshot(e.(status := "missing_credentials", message := NOT_CONFIGURED), running, "never_checked", "")
    else
      var known := if e.status == "" then e.(status := "configured", message := NOT_CHECKED) else e;
      if e.lastCheckedAt.None? then Snapshot(known, running, "never_checked", "")
      else if now - e.lastCheckedAt.value > FRESH_FOR then
        Snapshot(known.(status := "stale", message := TOO_OLD), running, "stale", known.status)
      else Snapshot(known, running, "fresh", known.status)
  }

  lemma ShownReady(e: Evidence, running: bool, configured: bool, now: Time)
    ensures var s := Shown(e, running, configured, now);
      s.evidence.status == "ready" <==>
        configured && e.status == "ready" && (e.lastCheckedAt.Some? ==> now - e.lastCheckedAt.value <= FRESH_FOR)
    ensures var s := Shown(e, running, configured, now);
      s.evidence.status == "ready" && e.lastCheckedAt.Some? ==> s.freshness == "fresh"
  {
    assert "ready"[0] == 'r' && "missing_credentials"[0] == 'm' && "configured"[0] == 'c' && "stale"[0] == 's';
  }

  /** What a snapshot shows: unconfigured, never checked, older than ten minutes, or the stored status. */
  lemma SnapshotMeans(e: Evidence, running: bool, configured: bool, now: Time)
    ensures var s, known := Shown(e, running, configured, now), if e.status == "" then "configured" else e.status;
      && s.checking == running
      && s.freshness == (if !configured || e.lastCheckedAt.None? then "never_checked"
                         else if now - e.lastCheckedAt.value > 600 * SECOND then "stale" else "fresh")
      && s.observedStatus == (if !configured || e.lastCheckedAt.None? then "" else known)
      && s.evidence.status ==
           (if !configured then "missing_credentials"
            else if e.lastCheckedAt.Some? && now - e.lastCheckedAt.value > 600 * SECOND then "stale" else known)
  {}

  /** A snapshot replaces nothing but the status and its message, and a fresh one not even these. */
  lemma SnapshotKeeps(e: Evidence, running: bool, configured: bool, now: Time)
    ensures var s := Shown(e, running, configured, now);
      && s.evidence.version == e.version && s.evidence.retryAfter == e.retryAfter
      && s.evidence.lastCheckedAt == e.lastCheckedAt && s.evidence.lastSuccessAt == e.lastSuccessAt
      && s.evidence.lastVersionAt == e.lastVersionAt
      && (configured && e.status != "" && (e.lastCheckedAt.Some? ==> now - e.lastCheckedAt.value <= 600 * SECOND) ==>
            s.evidence == e)
      && s.evidence.message ==
           (if !configured then NOT_CONFIGURED
            else if e.lastCheckedAt.Some? && now - e.lastCheckedAt.value > 600 * SECOND then TOO_OLD
            else if e.status == "" then NOT_CHECKED else e.message)
  {}

  datatype Decision = Answer(snapshot: Snapshot) | Wait(channel: Channel) | Go(channel: Channel)

  class IntegrationObservation {
    var latest: Evidence
    var running: Option<Channel>

    constructor ()
      ensures latest == NOTHING && running.None?
    {
      latest, running := NOTHING, None;
    }

    method Look(configured: bool, now: Time) returns (h: Snapshot)
      ensures h == Shown(latest, running.Some?, configured, now)
    {
      var known := latest;
      var freshness, observed := "never_checked", "";
      if !configured {
        known := known.(status := "missing_credentials", message := NOT_CONFIGURED);
        return Snapshot(known, running.Some?, freshness, observed);
      }
      if known.status == "" {
        known := known.(status := "configured", message := NOT_CHECKED);
      }
      if known.lastCheckedAt.Some? {
        observed, freshness := known.status, "fresh";
        if now - known.lastCheckedAt.value > FRESH_FOR {
          freshness := "stale";
          known := known.(status := "stale", message := TOO_OLD);
        }
      }
      return Snapshot(known, running.Some?, freshness, observed);
    }

    /** The first critical section of checkHealth; `done` is the channel it makes if it decides to probe. */
    method Begin(configured: bool, cancelled: bool, now: Time, done: Channel) returns (d: Decision)
      modifies this`running
      ensures d.Answer? <==>
        || !configured || cancelled
        || (latest.lastCheckedAt.Some? && now - latest.lastCheckedAt.value < 15 * SECOND)
        || (latest.retryAfter.Some? && now < latest.retryAfter.value)
      ensures !MayProbe(latest, configured, cancelled, now) ==>
        d == Answer(Shown(latest, old(running).Some?, configured, now)) && running == old(running)
      ensures MayProbe(latest, configured, cancelled, now) && old(running).Some? ==>
          d == Wait(old(running).value) && running == old(running)
      ensures MayProbe(latest, configured, cancelled, now) && old(running).None? ==>
          d == Go(done) && running == Some(done)
    {
      if !configured || cancelled
         || (latest.lastCheckedAt.Some? && now - latest.lastCheckedAt.value < SPACING)
         || (latest.retryAfter.Some? && now < latest.retryAfter.value) {
        var snapshot := Look(configured, now);
        return Answer(snapshot);
      }
      if running.Some? {
        return Wait(running.value);
      }
      running := Some(done);
      return Go(done);
    }

    /** The last critical section: a cancelled caller records nothing, but always stops and closes. */
    method Finish(result: Probe, configured: bool, cancelled: bool, now: Time) returns (h: Snapshot, closed: Channel)
      requires running.Some?
      modifies this
      ensures running.None? && closed == old(running).value
      ensures latest == if cancelled then old(latest) else Recorded(old(latest), result, now)
      ensures !cancelled ==>
        && latest.status == result.status && latest.message == result.message
        && latest.retryAfter == result.retryAfter && latest.lastCheckedAt == Some(now)
        && latest.version == (if result.version == "" then old(latest).version else result.version)
        && latest.lastVersionAt == (if result.version == "" then old(latest).lastVersionAt else Some(now))
        && latest.lastSuccessAt == (if result.status == "ready" then Some(now) else old(latest).lastSuccessAt)
      ensures h == Shown(latest, false, configured, now)
    {
      if !cancelled {
        var version, versionAt := result.version, Some(now);
        if result.version == "" {
          version, versionAt := latest.version, latest.lastVersionAt;
        }
        var successAt := latest.lastSuccessAt;
        if result.status == "ready" {
          successAt := Some(now);
        }
        latest := Evidence(result.status, result.message, version, result.retryAfter, Some(now), successAt, versionAt);
      }
      closed := running.value;
      running := None;
      h := Look(configured, now);
    }
  }
}
