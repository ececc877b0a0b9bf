/**
  Resolving the book ids of a compatibility request: three indexes built over the
  library, against the plain scan they stand for. The numeric id the API emits is an
  arbitrary function of the book id, free to collide.
 */
module BookSelection {
  import opened Text

  datatype Item = Item(id: string, workId: string, editionId: string, sourceKey: string, status: string)

  predicate Visible(item: Item) {
    Lower(Trim(item.status)) != "removed" && Lower(Trim(item.status)) != "ignored"
  }

  datatype Kind = Primary | Numeric | Alias

  /** The item answers to this key in this index. */
  predicate Answers(kind: Kind, key: string, item: Item, number: string -> string) {
    match kind
    case Primary => Lower(item.id) == key
    case Numeric => number(item.id) == key
    case Alias => key != "" && (item.workId == key || item.editionId == key || item.sourceKey == key)
  }

  /** The visible books that answer to a key, in library order. */
  function Scan(kind: Kind, items: seq<Item>, key: string, number: string -> string): seq<Item> {
    if items == [] then []
    else
      var n := |items| - 1;
      Scan(kind, items[..n], key, number)
      + (if Visible(items[n]) && Answers(kind, key, items[n], number) then [items[n]] else [])
  }

  /** The id itself wins over the emitted number, which wins over an alias. */
  function Matches(items: seq<Item>, id: string, number: string -> string): seq<Item> {
    var primary, numeric := Scan(Primary, items, Lower(id), number), Scan(Numeric, items, id, number);
    if primary != [] then primary else if numeric != [] then numeric else Scan(Alias, items, id, number)
  }

  datatype Lookup = Found(item: Item) | Missing | Ambiguous

  function Find(items: seq<Item>, raw: string, number: string -> string): Lookup {
    var matches := Matches(items, Trim(raw), number);
    if |matches| == 0 then Missing else if |matches| == 1 then Found(matches[0]) else Ambiguous
  }

  datatype Outcome = Books(items: seq<Item>) | Failed(id: string, why: Lookup)

  /** Each book once, in the order first asked for, or the first id that does not name one book. */
  function Resolve(items: seq<Item>, ids: seq<string>, number: string -> string): Outcome {
    if ids == [] then Books([])
    else
      var n := |ids| - 1;
      var before := Resolve(items, ids[..n], number);
      if before.Failed? then before
      else
        var found := Find(items, ids[n], number);
        if !found.Found? then Failed(Trim(ids[n]), found)
        else if HasId(before.items, found.item.id) then before
        else Books(before.items + [found.item])
  }

  predicate HasId(items: seq<Item>, id: string) {
    exists n :: 0 <= n < |items| && items[n].id == id
  }

  // ---- the indexes ----

  function Get(index: map<string, seq<Item>>, key: string): seq<Item> {
    if key in index then index[key] else []
  }

  /** The index holds for every key what a scan of these items finds. */
  ghost predicate Indexes(index: map<string, seq<Item>>, kind: Kind, items: seq<Item>, number: string -> string) {
    forall key :: Get(index, key) == Scan(kind, items, key, number)
  }

  lemma ScanSnoc(kind: Kind, items: seq<Item>, item: Item, key: string, number: string -> string)
    ensures Scan(kind, items + [item], key, number)
      == Scan(kind, items, key, number) + (if Visible(item) && Answers(kind, key, item, number) then [item] else [])
  {
    assert (items + [item])[..|items|] == items;
  }

  /** Filed under its own key and no other. */
  lemma Filed(index: map<string, seq<Item>>, kind: Kind, items: seq<Item>, item: Item, at: string,
          number: string -> string)
    requires Indexes(index, kind, items, number) && Visible(item)
    requires forall key :: Answers(kind, key, item, number) <==> key == at
    ensures Indexes(index[at := Get(index, at) + [item]], kind, items + [item], number)
  {
    var after := index[at := Get(index, at) + [item]];
    forall key
      ensures Get(after, key) == Scan(kind, items + [item], key, number)
    {
      ScanSnoc(kind, items, item, key, number);
    }
  }

  /** The alias index part way through one item: filed under the aliases already seen. */
  ghost predicate PartFiled(index: map<string, seq<Item>>, before: map<string, seq<Item>>, item: Item,
          seen: set<string>) {
    forall key :: Get(index, key) == Get(before, key) + (if key in seen then [item] else [])
  }

  function AliasNames(item: Item): set<string> {
    {item.workId, item.editionId, item.sourceKey} - {""}
  }

  method FileAliases(before: map<string, seq<Item>>, item: Item) returns (index: map<string, seq<Item>>)
    ensures PartFiled(index, before, item, AliasNames(item))
  {
    var names := [item.workId, item.editionId, item.sourceKey];
    var seen: set<string> := {};
    index := before;
    for k := 0 to |names|
      invariant PartFiled(index, before, item, seen)
      invariant forall a :: a in seen <==> a != "" && a in names[..k]
    {
      var name := names[k];
      assert names[..k + 1] == names[..k] + [name];
      if name != "" && name !in seen {
        FileOne(index, before, item, seen, name);
        seen := seen + {name};
        index := index[name := Get(index, name) + [item]];
      }
    }
    assert names[..|names|] == names;
    assert seen == AliasNames(item);
  }

  lemma FileOne(index: map<string, seq<Item>>, before: map<string, seq<Item>>, item: Item, seen: set<string>,
          name: string)
    requires PartFiled(index, before, item, seen) && name !in seen
    ensures PartFiled(index[name := Get(index, name) + [item]], before, item, seen + {name})
  {
    var after := index[name := Get(index, name) + [item]];
    forall key ensures Get(after, key) == Get(before, key) + (if key in seen + {name} then [item] else []) {
      assert Get(index, key) == Get(before, key) + (if key in seen then [item] else []);
    }
  }

  lemma AliasNamesExactly(item: Item, key: string, number: string -> string)
    ensures key in AliasNames(item) <==> Answers(Alias, key, item, number)
  {}

  lemma AliasesFiled(index: map<string, seq<Item>>, before: map<string, seq<Item>>, items: seq<Item>, item: Item,
          number: string -> string)
    requires Indexes(before, Alias, items, number) && Visible(item)
    requires PartFiled(index, before, item, AliasNames(item))
    ensures Indexes(index, Alias, items + [item], number)
  {
    forall key ensures Get(index, key) == Scan(Alias, items + [item], key, number) {
      AliasFiled(index, before, items, item, key, number);
    }
  }

  lemma AliasFiled(index: map<string, seq<Item>>, before: map<string, seq<Item>>, items: seq<Item>, item: Item,
          key: string, number: string -> string)
    requires Indexes(before, Alias, items, number) && Visible(item)
    requires PartFiled(index, before, item, AliasNames(item))
    ensures Get(index, key) == Scan(Alias, items + [item], key, number)
  {
    assert Get(before, key) == Scan(Alias, items, key, number);
    ScanSnoc(Alias, items, item, key, number);
    AliasNamesExactly(item, key, number);
  }

  method BuildIndexes(items: seq<Item>, number: string -> string)
    returns (primary: map<string, seq<Item>>, numeric: map<string, seq<Item>>, aliases: map<string, seq<Item>>)
    ensures Indexes(primary, Primary, items, number)
    ensures Indexes(numeric, Numeric, items, number)
    ensures Indexes(aliases, Alias, items, number)
  {
    primary, numeric, aliases := map[], map[], map[];
    for n := 0 to |items|
      invariant Indexes(primary, Primary, items[..n], number)
      invariant Indexes(numeric, Numeric, items[..n], number)
      invariant Indexes(aliases, Alias, items[..n], number)
    {
      var item := items[n];
      assert items[..n + 1] == items[..n] + [item];
      if !Visible(item) {
        continue;
      }
      Filed(primary, Primary, items[..n], item, Lower(item.id), number);
      primary := primary[Lower(item.id) := Get(primary, Lower(item.id)) + [item]];
      Filed(numeric, Numeric, items[..n], item, number(item.id), number);
      numeric := numeric[number(item.id) := Get(numeric, number(item.id)) + [item]];
      ghost var before := aliases;
      aliases := FileAliases(aliases, item);
      AliasesFiled(aliases, before, items[..n], item, number);
    }
    assert items[..|items|] == items;
  }

  /** The indexed resolver computes what the scan specifies. */
  method ResolveCompatBooks(items: seq<Item>, ids: seq<string>, number: string -> string) returns (outcome: Outcome)
    ensures outcome == Resolve(items, ids, number)
  {
    var primary, numeric, aliases := BuildIndexes(items, number);
    var result: seq<Item> := [];
    var seen: set<string> := {};
    for n := 0 to |ids|
      invariant Resolve(items, ids[..n], number) == Books(result)
      invariant forall id :: id in seen <==> HasId(result, id)
    {
      assert ids[..n + 1][..n] == ids[..n];
      var id := Trim(ids[n]);
      var matches := Get(primary, Lower(id));
      if |matches| == 0 {
        matches := Get(numeric, id);
      }
      if |matches| == 0 {
        matches := Get(aliases, id);
      }
      assert matches == Matches(items, id, number);
      if |matches| == 0 {
        FailureStands(items, ids, n, number);
        return Failed(id, Missing);
      }
      if |matches| != 1 {
        FailureStands(items, ids, n, number);
        return Failed(id, Ambiguous);
      }
      if matches[0].id !in seen {
        HasIdAppend(result, matches[0]);
        seen := seen + {matches[0].id};
        result := result + [matches[0]];
      }
    }
    assert ids[..|ids|] == ids;
    return Books(result);
  }

  lemma HasIdAppend(items: seq<Item>, item: Item)
    ensures forall id :: HasId(items + [item], id) <==> HasId(items, id) || id == item.id
  {
    forall id ensures HasId(items + [item], id) <==> HasId(items, id) || id == item.id {
      assert (items + [item])[|items|] == item;
      assert forall n :: 0 <= n < |items| ==> (items + [item])[n] == items[n];
    }
  }

  /** Once one id fails, so does the whole request, and with that id. */
  lemma {:induction false} FailureStandsFrom(items: seq<Item>, ids: seq<string>, n: nat, number: string -> string)
    requires n <= |ids| && Resolve(items, ids[..n], number).Failed?
    ensures Resolve(items, ids, number) == Resolve(items, ids[..n], number)
    decreases |ids|
  {
    if n == |ids| {
      assert ids[..n] == ids;
    } else {
      var init := ids[..|ids| - 1];
      assert init[..n] == ids[..n];
      FailureStandsFrom(items, init, n, number);
    }
  }

  lemma FailureStands(items: seq<Item>, ids: seq<string>, n: nat, number: string -> string)
    requires n < |ids| && Resolve(items, ids[..n], number).Books? && !Find(items, ids[n], number).Found?
    ensures Resolve(items, ids, number) == Failed(Trim(ids[n]), Find(items, ids[n], number))
  {
    assert ids[..n + 1][..n] == ids[..n];
    FailureStandsFrom(items, ids, n + 1, number);
  }

  // ---- which book an id names ----

  /** The n-th book is visible and answers to the key. */
  ghost predicate Hit(kind: Kind, items: seq<Item>, key: string, number: string -> string, n: int) {
    0 <= n < |items| && Visible(items[n]) && Answers(kind, key, items[n], number)
  }

  lemma {:induction false} ScanNone(kind: Kind, items: seq<Item>, key: string, number: string -> string)
    requires forall n :: !Hit(kind, items, key, number, n)
    ensures Scan(kind, items, key, number) == []
  {
    if items != [] {
      var last := |items| - 1;
      assert forall n :: Hit(kind, items[..last], key, number, n) ==> Hit(kind, items, key, number, n);
      ScanNone(kind, items[..last], key, number);
      assert !Hit(kind, items, key, number, last);
    }
  }

  lemma {:induction false} ScanOnly(kind: Kind, items: seq<Item>, key: string, number: string -> string, n: nat)
    requires Hit(kind, items, key, number, n) && forall m :: Hit(kind, items, key, number, m) ==> m == n
    ensures Scan(kind, items, key, number) == [items[n]]
  {
    var last := |items| - 1;
    assert forall m :: Hit(kind, items[..last], key, number, m) ==> Hit(kind, items, key, number, m);
    if n == last {
      ScanNone(kind, items[..last], key, number);
    } else {
      ScanOnly(kind, items[..last], key, number, n);
      assert !Hit(kind, items, key, number, last);
    }
  }

  /** What a scan with a hit comes to. */
  lemma ScanHits(kind: Kind, items: seq<Item>, key: string, number: string -> string, n: nat)
    requires Hit(kind, items, key, number, n)
    ensures Scan(kind, items, key, number) != []
    ensures (forall m :: Hit(kind, items, key, number, m) ==> m == n) ==> Scan(kind, items, key, number) == [items[n]]
    ensures (exists m :: m != n && Hit(kind, items, key, number, m)) ==> |Scan(kind, items, key, number)| > 1
  {
    ScanHolds(kind, items, n, key, number);
    if m :| m != n && Hit(kind, items, key, number, m) {
      if m < n { ScanTwo(kind, items, m, n, key, number); } else { ScanTwo(kind, items, n, m, key, number); }
    } else {
      ScanOnly(kind, items, key, number, n);
    }
  }

  function KeyIn(kind: Kind, id: string): string {
    if kind.Primary? then Lower(id) else id
  }

  /** The first index in which the id has a hit decides. */
  lemma FindBy(kind: Kind, items: seq<Item>, raw: string, number: string -> string, n: nat)
    requires Hit(kind, items, KeyIn(kind, Trim(raw)), number, n)
    requires !kind.Primary? ==> forall m :: !Hit(Primary, items, Lower(Trim(raw)), number, m)
    requires kind.Alias? ==> forall m :: !Hit(Numeric, items, Trim(raw), number, m)
    ensures (forall m :: Hit(kind, items, KeyIn(kind, Trim(raw)), number, m) ==> m == n) ==>
      Find(items, raw, number) == Found(items[n])
    ensures (exists m :: m != n && Hit(kind, items, KeyIn(kind, Trim(raw)), number, m)) ==>
      Find(items, raw, number) == Ambiguous
  {
    ScanHits(kind, items, KeyIn(kind, Trim(raw)), number, n);
    if !kind.Primary? { ScanNone(Primary, items, Lower(Trim(raw)), number); }
    if kind.Alias? { ScanNone(Numeric, items, Trim(raw), number); }
  }

  /**
    An id that is, in any letter case, that of a book neither removed nor ignored names this
    book, unless another such book has it too.
   */
  lemma FoundById(items: seq<Item>, raw: string, number: string -> string, n: nat)
    requires n < |items| && Lower(items[n].id) == Lower(Trim(raw))
    requires Lower(Trim(items[n].status)) != "removed" && Lower(Trim(items[n].status)) != "ignored"
    ensures Find(items, raw, number) ==
      if exists m ::
        && 0 <= m < |items| && m != n && Lower(items[m].id) == Lower(Trim(raw))
        && Lower(Trim(items[m].status)) != "removed" && Lower(Trim(items[m].status)) != "ignored"
      then Ambiguous
      else Found(items[n])
  {
    var key := Lower(Trim(raw));
    forall m
      ensures Hit(Primary, items, key, number, m) <==>
        && 0 <= m < |items| && Lower(items[m].id) == key
        && Lower(Trim(items[m].status)) != "removed" && Lower(Trim(items[m].status)) != "ignored"
    {
    }
    FindBy(Primary, items, raw, number, n);
  }

  /** When no such book has it as its id, it may be the number of one. */
  lemma FoundByNumber(items: seq<Item>, raw: string, number: string -> string, n: nat)
    requires forall m :: 0 <= m < |items| && Lower(items[m].id) == Lower(Trim(raw)) ==>
      Lower(Trim(items[m].status)) == "removed" || Lower(Trim(items[m].status)) == "ignored"
    requires n < |items| && number(items[n].id) == Trim(raw)
    requires Lower(Trim(items[n].status)) != "removed" && Lower(Trim(items[n].status)) != "ignored"
    ensures Find(items, raw, number) ==
      if exists m ::
        && 0 <= m < |items| && m != n && number(items[m].id) == Trim(raw)
        && Lower(Trim(items[m].status)) != "removed" && Lower(Trim(items[m].status)) != "ignored"
      then Ambiguous
      else Found(items[n])
  {
    forall m ensures !Hit(Primary, items, Lower(Trim(raw)), number, m) {}
    var key := Trim(raw);
    forall m
      ensures Hit(Numeric, items, key, number, m) <==>
        && 0 <= m < |items| && number(items[m].id) == key
        && Lower(Trim(items[m].status)) != "removed" && Lower(Trim(items[m].status)) != "ignored"
    {
    }
    FindBy(Numeric, items, raw, number, n);
  }

  lemma NoneByIdOrNumber(items: seq<Item>, raw: string, number: string -> string)
    requires forall m ::
      0 <= m < |items| && (Lower(items[m].id) == Lower(Trim(raw)) || number(items[m].id) == Trim(raw)) ==>
      Lower(Trim(items[m].status)) == "removed" || Lower(Trim(items[m].status)) == "ignored"
    ensures forall m :: !Hit(Primary, items, Lower(Trim(raw)), number, m) && !Hit(Numeric, items, Trim(raw), number, m)
  {}

  /** And when it is no number of one either, it may be a work, an edition or a source of one. */
  lemma FoundByAlias(items: seq<Item>, raw: string, number: string -> string, n: nat)
    requires forall m ::
      0 <= m < |items| && (Lower(items[m].id) == Lower(Trim(raw)) || number(items[m].id) == Trim(raw)) ==>
      Lower(Trim(items[m].status)) == "removed" || Lower(Trim(items[m].status)) == "ignored"
    requires n < |items| && Trim(raw) != ""
    requires items[n].workId == Trim(raw) || items[n].editionId == Trim(raw) || items[n].sourceKey == Trim(raw)
    requires Lower(Trim(items[n].status)) != "removed" && Lower(Trim(items[n].status)) != "ignored"
    ensures Find(items, raw, number) ==
      if exists m ::
        && 0 <= m < |items| && m != n
        && (items[m].workId == Trim(raw) || items[m].editionId == Trim(raw) || items[m].sourceKey == Trim(raw))
        && Lower(Trim(items[m].status)) != "removed" && Lower(Trim(items[m].status)) != "ignored"
      then Ambiguous
      else Found(items[n])
  {
    NoneByIdOrNumber(items, raw, number);
    var key := Trim(raw);
    forall m
      ensures Hit(Alias, items, key, number, m) <==>
        && 0 <= m < |items| && (items[m].workId == key || items[m].editionId == key || items[m].sourceKey == key)
        && Lower(Trim(items[m].status)) != "removed" && Lower(Trim(items[m].status)) != "ignored"
    {
    }
    FindBy(Alias, items, raw, number, n);
  }

  /** Otherwise it names nothing; neither does a blank one that is no id and no number. */
  lemma MissingExactly(items: seq<Item>, raw: string, number: string -> string)
    requires forall m ::
      0 <= m < |items| && (Lower(items[m].id) == Lower(Trim(raw)) || number(items[m].id) == Trim(raw)) ==>
      Lower(Trim(items[m].status)) == "removed" || Lower(Trim(items[m].status)) == "ignored"
    requires Trim(raw) != "" ==> forall m ::
      0 <= m < |items|
      && (items[m].workId == Trim(raw) || items[m].editionId == Trim(raw) || items[m].sourceKey == Trim(raw)) ==>
      Lower(Trim(items[m].status)) == "removed" || Lower(Trim(items[m].status)) == "ignored"
    ensures Find(items, raw, number) == Missing
  {
    NoneByIdOrNumber(items, raw, number);
    ScanNone(Primary, items, Lower(Trim(raw)), number);
    ScanNone(Numeric, items, Trim(raw), number);
    forall m ensures !Hit(Alias, items, Trim(raw), number, m) {}
    ScanNone(Alias, items, Trim(raw), number);
  }

  // ---- all or nothing ----

  /** A request succeeds exactly when every id names one book. */
  lemma {:induction false} AllOrNothing(items: seq<Item>, ids: seq<string>, number: string -> string)
    ensures Resolve(items, ids, number).Books? <==> forall k :: 0 <= k < |ids| ==> Find(items, ids[k], number).Found?
  {
    if ids != [] {
      var n := |ids| - 1;
      var init := ids[..n];
      AllOrNothing(items, init, number);
      ResolveSnoc(items, ids, number);
      if Resolve(items, ids, number).Books? {
        forall k | 0 <= k < |ids| ensures Find(items, ids[k], number).Found? { if k < n { assert init[k] == ids[k]; } }
      } else if Resolve(items, init, number).Failed? {
        var k :| 0 <= k < n && !Find(items, init[k], number).Found?;
        assert init[k] == ids[k];
      }
    }
  }

  lemma ResolveSnoc(items: seq<Item>, ids: seq<string>, number: string -> string)
    requires ids != []
    ensures Resolve(items, ids, number).Books?
      <==> Resolve(items, ids[..|ids| - 1], number).Books? && Find(items, ids[|ids| - 1], number).Found?
  {}

  /** A request that fails reports the first id that does not name one book. */
  lemma {:induction false} ReportsFirstFailure(items: seq<Item>, ids: seq<string>, number: string -> string)
      returns (k: int)
    requires Resolve(items, ids, number).Failed?
    ensures FirstFailure(items, ids, k, number)
    ensures Resolve(items, ids, number) == Failed(Trim(ids[k]), Find(items, ids[k], number))
  {
    var n := |ids| - 1;
    var init := ids[..n];
    assert forall j :: 0 <= j < n ==> init[j] == ids[j];
    if Resolve(items, init, number).Failed? {
      k := ReportsFirstFailure(items, init, number);
    } else {
      AllOrNothing(items, init, number);
      k := n;
    }
  }

  ghost predicate FirstFailure(items: seq<Item>, ids: seq<string>, k: int, number: string -> string) {
    && 0 <= k < |ids| && !Find(items, ids[k], number).Found?
    && forall j :: 0 <= j < k ==> Find(items, ids[j], number).Found?
  }

  // ---- once each, in the order first asked for ----

  /** The k-th request names a book no earlier one named. */
  ghost predicate FirstRequest(items: seq<Item>, ids: seq<string>, k: int, number: string -> string) {
    && 0 <= k < |ids| && Find(items, ids[k], number).Found?
    && forall j :: 0 <= j < k && Find(items, ids[j], number).Found? ==>
         Find(items, ids[j], number).item.id != Find(items, ids[k], number).item.id
  }

  /** These positions are, ascending, exactly the first requests, and the books are theirs. */
  ghost predicate InRequestOrder(items: seq<Item>, ids: seq<string>, number: string -> string, books: seq<Item>,
          at: seq<int>) {
    && |books| == |at|
    && (forall n :: 0 <= n < |at| ==>
        FirstRequest(items, ids, at[n], number) && books[n] == Find(items, ids[at[n]], number).item)
    && (forall m, n :: 0 <= m < n < |at| ==> at[m] < at[n])
    && (forall k :: FirstRequest(items, ids, k, number) ==> k in at)
  }

  lemma FirstRequestSnoc(items: seq<Item>, init: seq<string>, last: string, k: int, number: string -> string)
    requires 0 <= k < |init|
    ensures FirstRequest(items, init + [last], k, number) <==> FirstRequest(items, init, k, number)
  {
    var ids := init + [last];
    assert forall j :: 0 <= j < |init| ==> ids[j] == init[j];
  }

  lemma OrderKept(items: seq<Item>, init: seq<string>, last: string, number: string -> string, books: seq<Item>,
          at: seq<int>)
    requires InRequestOrder(items, init, number, books, at) && !FirstRequest(items, init + [last], |init|, number)
    ensures InRequestOrder(items, init + [last], number, books, at)
  {
    var ids := init + [last];
    forall j | 0 <= j < |init|
      ensures FirstRequest(items, ids, j, number) <==> FirstRequest(items, init, j, number) && ids[j] == init[j]
    {
      FirstRequestSnoc(items, init, last, j, number);
    }
  }

  lemma OrderExtends(items: seq<Item>, init: seq<string>, last: string, number: string -> string, books: seq<Item>,
          at: seq<int>)
    requires InRequestOrder(items, init, number, books, at) && FirstRequest(items, init + [last], |init|, number)
    ensures InRequestOrder(items, init + [last], number, books + [Find(items, last, number).item], at + [|init|])
  {
    var ids, more := init + [last], at + [|init|];
    assert ids[|init|] == last && more[|at|] == |init|;
    forall j | 0 <= j < |init|
      ensures FirstRequest(items, ids, j, number) <==> FirstRequest(items, init, j, number) && ids[j] == init[j]
    {
      FirstRequestSnoc(items, init, last, j, number);
    }
    forall j | FirstRequest(items, ids, j, number) ensures j in more {
      if j < |init| {
        var n :| 0 <= n < |at| && at[n] == j;
        assert more[n] == j;
      }
    }
  }

  /** Every listed book has an earlier or equal request that named it first. */
  lemma SeenBefore(items: seq<Item>, init: seq<string>, last: string, number: string -> string, books: seq<Item>,
          at: seq<int>)
    requires InRequestOrder(items, init, number, books, at) && Find(items, last, number).Found?
    requires forall k :: 0 <= k < |init| ==> Find(items, init[k], number).Found?
    ensures FirstRequest(items, init + [last], |init|, number) <==> !HasId(books, Find(items, last, number).item.id)
  {
    var ids, id := init + [last], Find(items, last, number).item.id;
    assert ids[|init|] == last && forall j :: 0 <= j < |init| ==> ids[j] == init[j];
    if HasId(books, id) {
      var n :| 0 <= n < |books| && books[n].id == id;
      assert Find(items, ids[at[n]], number).item.id == id;
    } else {
      forall j | 0 <= j < |init| ensures Find(items, init[j], number).item.id != id {
        var f := FirstOf(items, init, j, number);
        var n :| 0 <= n < |at| && at[n] == f;
        assert books[n].id == Find(items, init[j], number).item.id;
      }
    }
  }

  lemma {:induction false} FirstOf(items: seq<Item>, ids: seq<string>, k: nat, number: string -> string)
      returns (f: int)
    requires k < |ids| && forall j :: 0 <= j < |ids| ==> Find(items, ids[j], number).Found?
    ensures FirstRequest(items, ids, f, number)
    ensures Find(items, ids[f], number).item.id == Find(items, ids[k], number).item.id
  {
    if j :| 0 <= j < k && Find(items, ids[j], number).item.id == Find(items, ids[k], number).item.id {
      f := FirstOf(items, ids, j, number);
    } else {
      f := k;
    }
  }

  /** A granted request returns each book once, in the order it was first asked for. */
  lemma {:induction false} OnceInOrder(items: seq<Item>, ids: seq<string>, number: string -> string)
      returns (at: seq<int>)
    requires Resolve(items, ids, number).Books?
    ensures InRequestOrder(items, ids, number, Resolve(items, ids, number).items, at)
  {
    if ids == [] {
      at := [];
    } else {
      var n := |ids| - 1;
      var init := ids[..n];
      assert ids == init + [ids[n]];
      at := OnceInOrder(items, init, number);
      AllOrNothing(items, init, number);
      SeenBefore(items, init, ids[n], number, Resolve(items, init, number).items, at);
      if FirstRequest(items, ids, n, number) {
        OrderExtends(items, init, ids[n], number, Resolve(items, init, number).items, at);
        at := at + [n];
      } else {
        OrderKept(items, init, ids[n], number, Resolve(items, init, number).items, at);
      }
    }
  }

  // ---- the order of the library does not matter ----

  lemma {:induction false} ScanCounts(kind: Kind, items: seq<Item>, key: string, number: string -> string, x: Item)
    ensures multiset(Scan(kind, items, key, number))[x]
      == if Visible(x) && Answers(kind, key, x, number) then multiset(items)[x] else 0
  {
    if items != [] {
      var n := |items| - 1;
      assert items == items[..n] + [items[n]];
      ScanCounts(kind, items[..n], key, number, x);
    }
  }

  lemma ScanOfPermutation(kind: Kind, a: seq<Item>, b: seq<Item>, key: string, number: string -> string)
    requires multiset(a) == multiset(b)
    ensures multiset(Scan(kind, a, key, number)) == multiset(Scan(kind, b, key, number))
  {
    forall x: Item ensures multiset(Scan(kind, a, key, number))[x] == multiset(Scan(kind, b, key, number))[x] {
      ScanCounts(kind, a, key, number, x);
      ScanCounts(kind, b, key, number, x);
    }
  }

  lemma SameBag(a: seq<Item>, b: seq<Item>)
    requires multiset(a) == multiset(b)
    ensures |a| == |b| && (|a| == 1 ==> a == b)
  {
    assert |multiset(a)| == |a| && |multiset(b)| == |b|;
    if |a| == 1 { assert a[0] in multiset(a); assert a[0] in b; }
  }

  lemma FindOfPermutation(a: seq<Item>, b: seq<Item>, raw: string, number: string -> string)
    requires multiset(a) == multiset(b)
    ensures Find(a, raw, number) == Find(b, raw, number)
  {
    var id := Trim(raw);
    ScanOfPermutation(Primary, a, b, Lower(id), number);
    ScanOfPermutation(Numeric, a, b, id, number);
    ScanOfPermutation(Alias, a, b, id, number);
    SameBag(Scan(Primary, a, Lower(id), number), Scan(Primary, b, Lower(id), number));
    SameBag(Scan(Numeric, a, id, number), Scan(Numeric, b, id, number));
    SameBag(Scan(Alias, a, id, number), Scan(Alias, b, id, number));
  }

  /** The answer depends on which books the library holds, never on their order, even when numeric ids collide. */
  lemma {:induction false} OrderIndependent(a: seq<Item>, b: seq<Item>, ids: seq<string>, number: string -> string)
    requires multiset(a) == multiset(b)
    ensures Resolve(a, ids, number) == Resolve(b, ids, number)
  {
    if ids != [] {
      OrderIndependent(a, b, ids[..|ids| - 1], number);
      FindOfPermutation(a, b, ids[|ids| - 1], number);
    }
  }

  /** A number two visible books share, and no book has as its id, names neither. */
  lemma CollisionIsAmbiguous(items: seq<Item>, i: nat, j: nat, number: string -> string)
    requires i < j < |items| && Visible(items[i]) && Visible(items[j]) && number(items[i].id) == number(items[j].id)
    requires Trimmed(number(items[i].id)) && Scan(Primary, items, Lower(number(items[i].id)), number) == []
    ensures Find(items, number(items[i].id), number) == Ambiguous
  {
    var key := number(items[i].id);
    TrimFixesTrimmed(key);
    ScanHolds(Numeric, items, i, key, number);
    ScanHolds(Numeric, items, j, key, number);
    ScanTwo(Numeric, items, i, j, key, number);
  }

  lemma {:induction false} ScanHolds(kind: Kind, items: seq<Item>, i: nat, key: string, number: string -> string)
    requires i < |items| && Visible(items[i]) && Answers(kind, key, items[i], number)
    ensures |Scan(kind, items, key, number)| >= 1
  {
    if i < |items| - 1 { ScanHolds(kind, items[..|items| - 1], i, key, number); }
  }

  lemma {:induction false} ScanTwo(kind: Kind, items: seq<Item>, i: nat, j: nat, key: string, number: string -> string)
    requires i < j < |items| && Visible(items[i]) && Answers(kind, key, items[i], number)
    requires Visible(items[j]) && Answers(kind, key, items[j], number)
    ensures |Scan(kind, items, key, number)| >= 2
  {
    var n := |items| - 1;
    if j < n {
      ScanTwo(kind, items[..n], i, j, key, number);
    } else {
      ScanHolds(kind, items[..n], i, key, number);
    }
  }
}
