/** What restoreAcquisitionLinks builds first: an index of the client list by state key, and the receipts to attach. */
module LinkIndex {
  import opened Records
  import opened Downloads

  function KeyOf(st: Status): string { StateKey(st.client, st.id) }

  /** Exactly the positions below n whose key is this one, each once. */
  ghost predicate Indexed<K>(at: seq<int>, keys: seq<K>, key: K, n: nat)
    requires n <= |keys|
  {
    && (forall j :: 0 <= j < |at| ==> 0 <= at[j] < n && keys[at[j]] == key)
    && (forall i, j :: 0 <= i < j < |at| ==> at[i] != at[j])
    && (forall m :: 0 <= m < n && keys[m] == key ==> m in at)
  }

  ghost predicate IndicesOf<K>(indices: map<K, seq<int>>, keys: seq<K>, n: nat)
    requires n <= |keys|
  {
    && (forall key :: key in indices ==> Indexed(indices[key], keys, key, n))
    && (forall m :: 0 <= m < n ==> keys[m] in indices)
  }

  /** What the index holds for a key: its positions so far, none if it has not been seen. */
  function Entry<K>(indices: map<K, seq<int>>, key: K): seq<int> {
    if key in indices then indices[key] else []
  }

  ghost function Keys(listed: seq<Status>): (keys: seq<string>)
    ensures |keys| == |listed| && forall n :: 0 <= n < |listed| ==> keys[n] == KeyOf(listed[n])
  {
    seq(|listed|, n requires 0 <= n < |listed| => KeyOf(listed[n]))
  }

  method IndexByKey(listed: seq<Status>) returns (indices: map<string, seq<int>>)
    ensures IndicesOf(indices, Keys(listed), |listed|)
    ensures forall n :: 0 <= n < |listed| ==> StateKey(listed[n].client, listed[n].id) in indices
    ensures forall key, n :: key in indices ==>
      (n in indices[key] <==> 0 <= n < |listed| && StateKey(listed[n].client, listed[n].id) == key)
    ensures forall key, i, j :: key in indices && 0 <= i < j < |indices[key]| ==> indices[key][i] != indices[key][j]
  {
    indices := map[];
    for n := 0 to |listed|
      invariant IndicesOf(indices, Keys(listed), n)
    {
      var key := KeyOf(listed[n]);
      indices := indices[key := Entry(indices, key) + [n]];
    }
  }

  /** The link query: every linkable receipt, in some order. */
  method QueryLinks(intents: map<IntentId, Intent>, listed: seq<Status>) returns (rows: seq<Intent>)
    requires forall id :: id in intents ==> intents[id].id == id
    ensures LinkRows(intents, listed, rows)
  {
    rows := [];
    var ids := LinkableIds(intents, listed);
    while ids != {}
      invariant ids <= LinkableIds(intents, listed)
      invariant forall k :: 0 <= k < |rows| ==>
          rows[k].id in LinkableIds(intents, listed) && rows[k] == intents[rows[k].id]
      invariant forall id :: id in LinkableIds(intents, listed) - ids ==> intents[id] in rows
    {
      var id :| id in ids;
      assert intents[id] in rows + [intents[id]] by { assert (rows + [intents[id]])[|rows|] == intents[id]; }
      rows := rows + [intents[id]];
      ids := ids - {id};
    }
  }

  function Attached(st: Status, row: Intent): Status {
    st.(tags := Attach(st.tags, row))
  }

  /** A client list with every entry's tags restored from the receipts returned. */
  function Relinked(listed: seq<Status>, rows: seq<Intent>): (r: seq<Status>)
    ensures |r| == |listed|
    ensures forall n :: 0 <= n < |listed| ==> r[n] == listed[n].(tags := Linked(listed[n], rows))
  {
    seq(|listed|, n requires 0 <= n < |listed| => listed[n].(tags := Linked(listed[n], rows)))
  }

  lemma LinkedStep(st: Status, rows: seq<Intent>, r: nat)
    requires r < |rows|
    ensures Linked(st, rows[..r + 1])
      == if SameDownload(st, rows[r]) then Attach(Linked(st, rows[..r]), rows[r]) else Linked(st, rows[..r])
  {
    assert rows[..r + 1][..r] == rows[..r];
  }
}
