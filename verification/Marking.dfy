/** Which rows a mark by external id touches: the one the id means, or none. */
module Marking {
  import opened Text
  import opened Records
  import opened Downloads

  /** The id means exactly one row. */
  predicate Means(rows: map<DownloadKey, Download>, id: string, client: string) {
    |Candidates(rows, id, Trim(client))| == 1
  }

  /** The id means this row. */
  predicate Target(rows: map<DownloadKey, Download>, k: DownloadKey, client: string) {
    Means(rows, k.externalId, client) && k in Candidates(rows, k.externalId, Trim(client))
  }

  /** Exactly the rows these ids mean are marked deleted; every other row is as it was. */
  ghost predicate MarkedDeleted(was: map<DownloadKey, Download>, rows: map<DownloadKey, Download>, ids: seq<string>,
          client: string, now: Time) {
    && rows.Keys == was.Keys
    && forall k :: k in was ==>
         rows[k] == if k.externalId in ids && Target(was, k, client) then was[k].(state := "removed", lastSeenAt := now)
                    else was[k]
  }

  /** The first n ids each meant one row, and exactly those rows are marked. */
  ghost predicate DeletedUpTo(was: map<DownloadKey, Download>, rows: map<DownloadKey, Download>, ids: seq<string>,
          n: nat, client: string, now: Time) {
    && n <= |ids| && (forall j :: 0 <= j < n ==> Means(was, ids[j], client))
    && MarkedDeleted(was, rows, ids[..n], client, now)
  }

  lemma MeansThis(rows: map<DownloadKey, Download>, id: string, client: string, k: DownloadKey)
    ensures Candidates(rows, id, client) == {k} <==>
      && k in rows && k.externalId == id && (client == "" || Lower(k.client) == Lower(client))
      && (forall j :: j in rows && j.externalId == id && j != k ==> client != "" && Lower(j.client) != Lower(client))
  {
    var found := Candidates(rows, id, client);
    if found == {k} {
      assert k in found;
      forall j | j in rows && j.externalId == id && j != k ensures client != "" && Lower(j.client) != Lower(client) {
        assert j !in found;
      }
    }
  }

  /**
    An id means the one row that carries it in the named client, in any letter case, or in any
    client if none is named.
   */
  lemma MeansExactly(rows: map<DownloadKey, Download>, id: string, client: string)
    ensures Means(rows, id, client) <==>
      exists k ::
        && k in rows && k.externalId == id && (Trim(client) == "" || Lower(k.client) == Lower(Trim(client)))
        && (forall j :: j in rows && j.externalId == id && j != k ==>
              Trim(client) != "" && Lower(j.client) != Lower(Trim(client)))
  {
    OneMember(Candidates(rows, id, Trim(client)));
    forall k
      ensures Candidates(rows, id, Trim(client)) == {k} <==>
        && k in rows && k.externalId == id && (Trim(client) == "" || Lower(k.client) == Lower(Trim(client)))
        && (forall j :: j in rows && j.externalId == id && j != k ==>
              Trim(client) != "" && Lower(j.client) != Lower(Trim(client)))
    {
      MeansThis(rows, id, Trim(client), k);
    }
  }

  lemma SameCandidates(was: map<DownloadKey, Download>, rows: map<DownloadKey, Download>, id: string, client: string)
    requires rows.Keys == was.Keys
    ensures Candidates(rows, id, client) == Candidates(was, id, client)
  {
    assert forall k :: k in rows <==> k in was;
  }

  /** Of all rows, exactly the one the id means has the mark. */
  ghost predicate MarkedAlone(was: map<DownloadKey, Download>, rows: map<DownloadKey, Download>, id: string,
          client: string, m: Mark, now: Time) {
    && rows.Keys == was.Keys
    && forall k :: k in was ==>
        rows[k] == if k.externalId == id && Target(was, k, client) then ApplyMark(was[k], m, now) else was[k]
  }

  lemma DeletedStep(was: map<DownloadKey, Download>, before: map<DownloadKey, Download>,
          after: map<DownloadKey, Download>, ids: seq<string>, n: nat, client: string, now: Time)
    requires n < |ids| && DeletedUpTo(was, before, ids, n, client, now) && Means(was, ids[n], client)
    requires MarkedAlone(before, after, ids[n], client, Deleted, now)
    ensures DeletedUpTo(was, after, ids, n + 1, client, now)
  {
    SameCandidates(was, before, ids[n], Trim(client));
    forall k | k in was
      ensures after[k] == if k.externalId in ids[..n + 1] && Target(was, k, client)
        then was[k].(state := "removed", lastSeenAt := now)
        else was[k]
    {
      assert ids[..n + 1] == ids[..n] + [ids[n]];
    }
  }
}
