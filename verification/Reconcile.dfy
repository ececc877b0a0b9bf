/**
  Reading a client list back: which listed download, if any, is the one an intent sent.
 */
module Reconcile {
  import opened Text
  import opened Records
  import opened Protocol

  /** The n-th listed download matches and no other does. */
  ghost predicate OnlyMatch(row: Intent, downloadId: string, listed: seq<Status>, n: int) {
    && 0 <= n < |listed| && Matches(row, downloadId, listed[n])
    && forall m :: 0 <= m < |listed| && m != n ==> !Matches(row, downloadId, listed[m])
  }

  lemma {:induction false} MatchingAppends(row: Intent, downloadId: string, listed: seq<Status>, st: Status)
    ensures Matching(row, downloadId, listed + [st])
      == Matching(row, downloadId, listed) + if Matches(row, downloadId, st) then [st] else []
  {
    if listed == [] {
      assert listed + [st] == [st];
    } else {
      assert (listed + [st])[1..] == listed[1..] + [st];
      MatchingAppends(row, downloadId, listed[1..], st);
    }
  }

  lemma {:induction false} NoneMatch(row: Intent, downloadId: string, listed: seq<Status>)
    ensures Matching(row, downloadId, listed) == []
      <==> forall n :: 0 <= n < |listed| ==> !Matches(row, downloadId, listed[n])
  {
    if listed != [] {
      var tail := listed[1..];
      NoneMatch(row, downloadId, tail);
      assert forall n :: 0 <= n < |tail| ==> tail[n] == listed[n + 1];
      if forall n :: 0 <= n < |tail| ==> !Matches(row, downloadId, tail[n]) {
        forall n | 0 < n < |listed| ensures !Matches(row, downloadId, listed[n]) { assert listed[n] == tail[n - 1]; }
      }
    }
  }

  lemma {:induction false} MatchingConcat(row: Intent, downloadId: string, a: seq<Status>, b: seq<Status>)
    ensures Matching(row, downloadId, a + b) == Matching(row, downloadId, a) + Matching(row, downloadId, b)
    decreases |b|
  {
    if b == [] {
      assert a + b == a;
    } else {
      MatchingConcat(row, downloadId, a + [b[0]], b[1..]);
      MatchingAppends(row, downloadId, a, b[0]);
      assert (a + [b[0]]) + b[1..] == a + b;
    }
  }

  lemma OnlyMatchIsFound(row: Intent, downloadId: string, listed: seq<Status>, n: int)
    requires OnlyMatch(row, downloadId, listed, n)
    ensures Matching(row, downloadId, listed) == [listed[n]]
  {
    var before, after := listed[..n], listed[n + 1..];
    MatchingAppends(row, downloadId, before, listed[n]);
    MatchingConcat(row, downloadId, before + [listed[n]], after);
    assert (before + [listed[n]]) + after == listed;
    forall m | 0 <= m < |before| ensures !Matches(row, downloadId, before[m]) { assert before[m] == listed[m]; }
    forall m | 0 <= m < |after| ensures !Matches(row, downloadId, after[m]) { assert after[m] == listed[n + 1 + m]; }
    NoneMatch(row, downloadId, before);
    NoneMatch(row, downloadId, after);
  }

  lemma {:induction false} FoundIsOnlyMatch(row: Intent, downloadId: string, listed: seq<Status>) returns (n: int)
    requires |Matching(row, downloadId, listed)| == 1
    ensures OnlyMatch(row, downloadId, listed, n)
  {
    var tail := listed[1..];
    if Matches(row, downloadId, listed[0]) {
      n := 0;
      NoneMatch(row, downloadId, tail);
      forall m | 0 < m < |listed| ensures !Matches(row, downloadId, listed[m]) { assert listed[m] == tail[m - 1]; }
    } else {
      n := FoundIsOnlyMatch(row, downloadId, tail);
      forall m | 0 < m < |listed| && m != n + 1
        ensures !Matches(row, downloadId, listed[m])
      {
        assert listed[m] == tail[m - 1];
      }
      n := n + 1;
    }
  }

  /** The list is conclusive exactly when one listed download matches and no other does; then that one is the match. */
  lemma ConclusiveExactly(row: Intent, downloadId: string, listed: seq<Status>)
    ensures |Matching(row, downloadId, listed)| == 1 <==> exists n :: OnlyMatch(row, downloadId, listed, n)
    ensures forall n :: OnlyMatch(row, downloadId, listed, n) ==> Matching(row, downloadId, listed) == [listed[n]]
  {
    forall n | OnlyMatch(row, downloadId, listed, n) ensures Matching(row, downloadId, listed) == [listed[n]] {
      OnlyMatchIsFound(row, downloadId, listed, n);
    }
    if |Matching(row, downloadId, listed)| == 1 {
      var n := FoundIsOnlyMatch(row, downloadId, listed);
    }
  }

  lemma OnlyMatchIsMember(row: Intent, downloadId: string, listed: seq<Status>, fits: set<int>, n: int)
    requires forall m :: m in fits <==> 0 <= m < |listed| && Matches(row, downloadId, listed[m])
    ensures fits == {n} <==> OnlyMatch(row, downloadId, listed, n)
  {
    if fits == {n} { assert n in fits; }
    if OnlyMatch(row, downloadId, listed, n) {
      forall m ensures m in fits <==> m == n { assert m in fits ==> Matches(row, downloadId, listed[m]); }
    }
  }

  lemma FitsExactly(row: Intent, downloadId: string, st: Status)
    ensures Matches(row, downloadId, st) <==>
      && st.client == row.request.client
      && (downloadId != "" ==> st.id == downloadId)
      && (downloadId == "" ==>
            (row.request.infoHash != "" && Lower(row.request.infoHash) == Lower(st.id))
            || "librarry-intent:" + Marks(row.id) in st.tags)
  {}

  /**
    A match is a download of the intent's client with the named id or, if none is named, with
    the intent's info hash as its id, in any letter case, or with the intent's own tag.
   */
  lemma ConclusiveMeans(row: Intent, downloadId: string, listed: seq<Status>)
    ensures |Matching(row, downloadId, listed)| == 1 <==> exists n :: OnlyMatch(row, downloadId, listed, n)
    ensures forall n :: OnlyMatch(row, downloadId, listed, n) ==> Matching(row, downloadId, listed) == [listed[n]]
    ensures var fits := set n | 0 <= n < |listed| && listed[n].client == row.request.client
          && (downloadId != "" ==> listed[n].id == downloadId)
          && (downloadId == "" ==>
                (row.request.infoHash != "" && Lower(row.request.infoHash) == Lower(listed[n].id))
                || "librarry-intent:" + Marks(row.id) in listed[n].tags);
      && (|Matching(row, downloadId, listed)| == 1 <==> |fits| == 1)
      && (forall n :: fits == {n} ==> Matching(row, downloadId, listed) == [listed[n]])
  {
    ConclusiveExactly(row, downloadId, listed);
    forall st: Status
      ensures Matches(row, downloadId, st) <==>
        && st.client == row.request.client
        && (downloadId != "" ==> st.id == downloadId)
        && (downloadId == "" ==>
              (row.request.infoHash != "" && Lower(row.request.infoHash) == Lower(st.id))
              || "librarry-intent:" + Marks(row.id) in st.tags)
    {
      FitsExactly(row, downloadId, st);
    }
    var fits := set n | 0 <= n < |listed| && listed[n].client == row.request.client
          && (downloadId != "" ==> listed[n].id == downloadId)
          && (downloadId == "" ==>
                (row.request.infoHash != "" && Lower(row.request.infoHash) == Lower(listed[n].id))
                || "librarry-intent:" + Marks(row.id) in listed[n].tags);
    OneMember(fits);
    forall n ensures fits == {n} <==> OnlyMatch(row, downloadId, listed, n) {
      OnlyMatchIsMember(row, downloadId, listed, fits, n);
    }
  }

  /** The scan over the list; several matches are no match. */
  method UniqueMatch(row: Intent, downloadId: string, listed: seq<Status>) returns (found: Option<Status>)
    ensures found.Some? <==> exists n :: OnlyMatch(row, downloadId, listed, n)
    ensures found.Some? ==> forall n :: OnlyMatch(row, downloadId, listed, n) ==> found.value == listed[n]
    // of the intent's client: the named id, or if none is named its info hash in any letter case, or its own tag
    ensures var fits := set n | 0 <= n < |listed| && listed[n].client == row.request.client
          && (downloadId != "" ==> listed[n].id == downloadId)
          && (downloadId == "" ==>
                (row.request.infoHash != "" && Lower(row.request.infoHash) == Lower(listed[n].id))
                || "librarry-intent:" + Marks(row.id) in listed[n].tags);
      && (found.Some? <==> |fits| == 1)
      && (forall n :: fits == {n} ==> found == Some(listed[n]))
  {
    var matches := [];
    for n := 0 to |listed|
      invariant matches == Matching(row, downloadId, listed[..n])
    {
      var status := listed[n];
      assert listed[..n + 1] == listed[..n] + [status];
      MatchingAppends(row, downloadId, listed[..n], status);
      if status.client == row.request.client {
        var isMatch := downloadId != "" && status.id == downloadId;
        if downloadId == "" {
          isMatch := row.request.infoHash != "" && Lower(row.request.infoHash) == Lower(status.id);
          for t := 0 to |status.tags|
            invariant isMatch <==>
              (row.request.infoHash != "" && Lower(row.request.infoHash) == Lower(status.id))
                  || IntentTag(row.id) in status.tags[..t]
          {
            assert status.tags[..t + 1] == status.tags[..t] + [status.tags[t]];
            if status.tags[t] == IntentTag(row.id) {
              isMatch := true;
            }
          }
          assert status.tags[..|status.tags|] == status.tags;
        }
        if isMatch {
          matches := matches + [status];
        }
      }
    }
    assert listed[..|listed|] == listed;
    ConclusiveMeans(row, downloadId, listed);
    return if |matches| == 1 then Some(matches[0]) else None;
  }
}
