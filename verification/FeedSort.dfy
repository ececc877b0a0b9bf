/**
  The feed's order and its cut: an in-place sort by swaps that leaves the newest release
  first, undated ones last and equal dates in the order they came, proved equal to the
  one stable sort there is; and the page of the requested size, which keeps the newest.
 */
module FeedSort {
  import opened Text
  import opened Records

  /** A release as the sort sees it; no date is Go's zero time. */
  datatype Item = Item(id: string, published: Option<Time>)

  /** The right one belongs before the left one: it is dated, and the left is undated or older. */
  predicate Ahead(right: Item, left: Item) {
    right.published.Some? && (left.published.None? || right.published.value > left.published.value)
  }

  predicate Sorted(s: seq<Item>) {
    forall i, j :: 0 <= i < j < |s| ==> !Ahead(s[j], s[i])
  }

  /** x moves left past everything it is ahead of, and stops at the first it is not. */
  function Insert(s: seq<Item>, x: Item): seq<Item> {
    if s == [] || !Ahead(x, s[|s| - 1]) then s + [x]
    else Insert(s[..|s| - 1], x) + [s[|s| - 1]]
  }

  function Sort(s: seq<Item>): seq<Item> {
    if s == [] then [] else Insert(Sort(s[..|s| - 1]), s[|s| - 1])
  }

  lemma {:induction false} InsertAt(s: seq<Item>, x: Item, j: nat)
    requires j <= |s| && (forall k :: j <= k < |s| ==> Ahead(x, s[k])) && (j > 0 ==> !Ahead(x, s[j - 1]))
    ensures Insert(s, x) == s[..j] + [x] + s[j..]
  {
    if j == |s| {
      assert s[..j] == s && s[j..] == [];
    } else {
      var n := |s| - 1;
      InsertAt(s[..n], x, j);
      assert s[..n][..j] == s[..j] && s[..n][j..] + [s[n]] == s[j..];
    }
  }

  lemma {:induction false} InsertKeeps(s: seq<Item>, x: Item)
    ensures multiset(Insert(s, x)) == multiset(s) + multiset{x}
  {
    if s != [] && Ahead(x, s[|s| - 1]) {
      var n := |s| - 1;
      InsertKeeps(s[..n], x);
      assert s == s[..n] + [s[n]];
    }
  }

  lemma {:induction false} SortKeeps(s: seq<Item>)
    ensures multiset(Sort(s)) == multiset(s) && |Sort(s)| == |s|
  {
    if s != [] {
      var n := |s| - 1;
      SortKeeps(s[..n]);
      InsertKeeps(Sort(s[..n]), s[n]);
      assert s == s[..n] + [s[n]];
    }
    assert |multiset(Sort(s))| == |Sort(s)| && |multiset(s)| == |s|;
  }

  lemma {:induction false} InsertSorts(s: seq<Item>, x: Item)
    requires Sorted(s)
    ensures Sorted(Insert(s, x))
  {
    if s != [] && Ahead(x, s[|s| - 1]) {
      var n := |s| - 1;
      InsertSorts(s[..n], x);
      InsertKeeps(s[..n], x);
      var init := Insert(s[..n], x);
      forall i | 0 <= i < |init| ensures !Ahead(s[n], init[i]) {
        assert init[i] in multiset(init);
        if init[i] != x {
          assert init[i] in multiset(s[..n]);
          var k :| 0 <= k < n && s[..n][k] == init[i];
        }
      }
    }
  }

  lemma {:induction false} SortSorts(s: seq<Item>)
    ensures Sorted(Sort(s))
  {
    if s != [] {
      SortSorts(s[..|s| - 1]);
      InsertSorts(Sort(s[..|s| - 1]), s[|s| - 1]);
    }
  }

  /** The newest release comes first, equal dates may follow each other, and undated ones come last. */
  lemma NewestComeFirst(s: seq<Item>, i: nat, j: nat)
    requires i < j < |s|
    ensures |Sort(s)| == |s|
    ensures var p, q := Sort(s)[i].published, Sort(s)[j].published;
      q.None? || (p.Some? && p.value >= q.value)
  {
    SortSorts(s);
    SortKeeps(s);
  }

  // ---- stability ----

  function IfDated(x: Item, at: Option<Time>): seq<Item> {
    if x.published == at then [x] else []
  }

  /** The releases with this date, in the order they stand. */
  function Dated(s: seq<Item>, at: Option<Time>): seq<Item> {
    if s == [] then [] else Dated(s[..|s| - 1], at) + IfDated(s[|s| - 1], at)
  }

  lemma DatedSnoc(s: seq<Item>, x: Item, at: Option<Time>)
    ensures Dated(s + [x], at) == Dated(s, at) + IfDated(x, at)
  {
    assert (s + [x])[..|s|] == s;
  }

  lemma SwapDated(before: seq<Item>, x: Item, y: Item, at: Option<Time>)
    requires x.published != y.published
    ensures before + IfDated(x, at) + IfDated(y, at) == before + IfDated(y, at) + IfDated(x, at)
  {
    if x.published == at {
      assert IfDated(y, at) == [];
    } else {
      assert IfDated(x, at) == [];
    }
  }

  lemma {:induction false} InsertIsStable(s: seq<Item>, x: Item, at: Option<Time>)
    ensures Dated(Insert(s, x), at) == Dated(s, at) + IfDated(x, at)
  {
    if s != [] && Ahead(x, s[|s| - 1]) {
      var n := |s| - 1;
      InsertIsStable(s[..n], x, at);
      DatedSnoc(Insert(s[..n], x), s[n], at);
      SwapDated(Dated(s[..n], at), x, s[n], at);
    } else {
      DatedSnoc(s, x, at);
    }
  }

  /** Releases with the same date, and undated ones, keep their order. */
  lemma {:induction false} SortIsStable(s: seq<Item>, at: Option<Time>)
    ensures Dated(Sort(s), at) == Dated(s, at)
  {
    if s != [] {
      var n := |s| - 1;
      SortIsStable(s[..n], at);
      InsertIsStable(Sort(s[..n]), s[n], at);
    }
  }

  /** Sortedness, contents and stability leave no choice: a list with all three is this one. */
  lemma {:induction false} SortIsTheOnlyOne(s: seq<Item>, r: seq<Item>)
    requires Sorted(r) && forall at :: Dated(r, at) == Dated(s, at)
    ensures r == Sort(s)
  {
    SortSorts(s);
    forall at ensures Dated(Sort(s), at) == Dated(r, at) { SortIsStable(s, at); }
    SameByDates(r, Sort(s));
  }

  lemma {:induction false} DatedOnly(s: seq<Item>, at: Option<Time>)
    ensures Dated(s, at) == [] <==> forall k :: 0 <= k < |s| ==> s[k].published != at
  {
    if s != [] {
      var n := |s| - 1;
      DatedOnly(s[..n], at);
      assert forall k :: 0 <= k < n ==> s[..n][k] == s[k];
    }
  }

  /** p is no newer than q; no date is older than any. */
  predicate NoNewer(p: Option<Time>, q: Option<Time>) {
    p.None? || (q.Some? && p.value <= q.value)
  }

  lemma NoNewerBothWays(p: Option<Time>, q: Option<Time>)
    requires NoNewer(p, q) && NoNewer(q, p)
    ensures p == q
  {}

  lemma LastIsOldest(a: seq<Item>, at: Option<Time>)
    requires a != [] && Sorted(a) && Dated(a, at) != []
    ensures NoNewer(a[|a| - 1].published, at)
  {
    DatedOnly(a, at);
    var i :| 0 <= i < |a| && a[i].published == at;
    assert i < |a| - 1 ==> !Ahead(a[|a| - 1], a[i]);
  }

  lemma LastIsDated(a: seq<Item>)
    requires a != []
    ensures var p := a[|a| - 1].published; Dated(a, p) != [] && Dated(a, p)[|Dated(a, p)| - 1] == a[|a| - 1]
  {}

  lemma LastDates(a: seq<Item>, b: seq<Item>)
    requires a != [] && b != [] && Sorted(a) && Sorted(b)
    requires var p, q := a[|a| - 1].published, b[|b| - 1].published;
      Dated(a, p) == Dated(b, p) && Dated(a, q) == Dated(b, q)
    ensures a[|a| - 1] == b[|b| - 1]
  {
    LastIsDated(a);
    LastIsDated(b);
    LastDate(a, b);
  }

  lemma LastDate(a: seq<Item>, b: seq<Item>)
    requires a != [] && b != [] && Sorted(a) && Sorted(b)
    requires Dated(a, b[|b| - 1].published) != [] && Dated(b, a[|a| - 1].published) != []
    ensures a[|a| - 1].published == b[|b| - 1].published
  {
    LastIsOldest(a, b[|b| - 1].published);
    LastIsOldest(b, a[|a| - 1].published);
    NoNewerBothWays(a[|a| - 1].published, b[|b| - 1].published);
  }

  lemma {:induction false} SameByDates(a: seq<Item>, b: seq<Item>)
    requires Sorted(a) && Sorted(b) && forall at :: Dated(a, at) == Dated(b, at)
    ensures a == b
    decreases |a|
  {
    if a == [] || b == [] {
      if a != [] { DatedOnly(a, a[0].published); DatedOnly(b, a[0].published); }
      if b != [] { DatedOnly(a, b[0].published); DatedOnly(b, b[0].published); }
    } else {
      var m, n := |a| - 1, |b| - 1;
      LastDates(a, b);
      forall at ensures Dated(a[..m], at) == Dated(b[..n], at) { DatedInit(a, b, at); }
      SameByDates(a[..m], b[..n]);
      assert a == a[..m] + [a[m]] && b == b[..n] + [b[n]];
    }
  }

  lemma Chop(x: seq<Item>, y: seq<Item>, last: seq<Item>)
    requires x + last == y + last
    ensures x == y
  {
    assert |x| == |y|;
    assert x == (x + last)[..|x|] && y == (y + last)[..|y|];
  }

  lemma DatedInit(a: seq<Item>, b: seq<Item>, at: Option<Time>)
    requires a != [] && b != [] && a[|a| - 1] == b[|b| - 1] && Dated(a, at) == Dated(b, at)
    ensures Dated(a[..|a| - 1], at) == Dated(b[..|b| - 1], at)
  {
    Chop(Dated(a[..|a| - 1], at), Dated(b[..|b| - 1], at), IfDated(a[|a| - 1], at));
  }

  // ---- the program ----

  method SortReleasesByPublishedAt(releases: array<Item>)
    modifies releases
    ensures releases[..] == Sort(old(releases[..]))
  {
    ghost var was := releases[..];
    var i := 1;
    if releases.Length > 0 { SortOne(was[0]); assert was[..1] == [was[0]] && releases[..1] == [was[0]]; }
    while i < releases.Length
      invariant 1 <= i && (i <= releases.Length || releases.Length == 0)
      invariant releases.Length > 0 ==> releases[..i] == Sort(was[..i]) && releases[i..] == was[i..]
      invariant releases.Length == 0 ==> releases[..] == was
    {
      InsertLast(releases, i);
      assert was[..i + 1][..i] == was[..i] && was[i] == was[i..][0];
      assert was[i + 1..] == was[i..][1..];
      i := i + 1;
    }
    if releases.Length > 0 { assert releases[..] == releases[..i] && was == was[..i]; }
  }

  lemma SortOne(x: Item)
    ensures Sort([x]) == [x]
  {
    assert [x][..0] == [];
  }

  /** The inner loop: one release walks left by swaps. */
  method InsertLast(a: array<Item>, i: nat)
    requires i < a.Length
    modifies a
    ensures a[..i + 1] == Insert(old(a[..i]), old(a[i])) && a[i + 1..] == old(a[i + 1..])
  {
    ghost var s, x := a[..i], a[i];
    var j := i;
    while j > 0
      invariant 0 <= j <= i
      invariant a[j] == x && a[i + 1..] == old(a[i + 1..])
      invariant forall k :: 0 <= k < j ==> a[k] == s[k]
      invariant forall k :: j < k <= i ==> a[k] == s[k - 1]
      invariant forall k :: j <= k < i ==> Ahead(x, s[k])
    {
      var left, right := a[j - 1].published, a[j].published;
      if right.None? || (left.Some? && !(right.value > left.value)) {
        break;
      }
      a[j - 1], a[j] := a[j], a[j - 1];
      j := j - 1;
    }
    InsertAt(s, x, j);
    assert a[..i + 1] == s[..j] + [x] + s[j..];
  }

  /** A limit out of range means a hundred. */
  function PageSize(requested: int): nat {
    if requested <= 0 || requested > 200 then 100 else requested
  }

  method SortAndCut(releases: array<Item>, requested: int) returns (page: seq<Item>)
    modifies releases
    ensures page == Cut(Sort(old(releases[..])), PageSize(requested))
    ensures page == Sort(old(releases[..]))[..|page|]
    ensures |page| == if 0 < requested <= 200 && requested < releases.Length then requested
                      else if (requested <= 0 || requested > 200) && releases.Length > 100 then 100
                      else releases.Length
  {
    var limit := requested;
    if limit <= 0 || limit > 200 {
      limit := 100;
    }
    SortReleasesByPublishedAt(releases);
    assert releases[..][..releases.Length] == releases[..];
    page := releases[..];
    if releases.Length > limit {
      page := releases[..limit];
    }
  }

  function Cut(s: seq<Item>, limit: nat): seq<Item> {
    if |s| > limit then s[..limit] else s
  }

  lemma CutSplits(all: seq<Item>, limit: nat) returns (dropped: seq<Item>)
    ensures Cut(all, limit) + dropped == all && |Cut(all, limit)| == if |all| < limit then |all| else limit
  {
    dropped := if |all| > limit then all[limit..] else [];
  }

  lemma NothingAheadIsCut(s: seq<Item>, kept: seq<Item>, dropped: seq<Item>, k: nat, d: nat)
    requires kept + dropped == Sort(s) && k < |kept| && d < |dropped|
    ensures !Ahead(dropped[d], kept[k])
  {
    SortSorts(s);
    var all := Sort(s);
    assert all[k] == kept[k] && all[|kept| + d] == dropped[d];
  }

  /**
    The cut keeps the top of the feed: together with what it drops it is the whole feed, and
    nothing dropped is ahead of anything kept.
   */
  lemma CutKeepsTheNewest(s: seq<Item>, limit: nat) returns (dropped: seq<Item>)
    ensures |Cut(Sort(s), limit)| == if |s| < limit then |s| else limit
    ensures multiset(Cut(Sort(s), limit)) + multiset(dropped) == multiset(s)
    ensures forall k, d :: 0 <= k < |Cut(Sort(s), limit)| && 0 <= d < |dropped| ==>
      var p, q := Cut(Sort(s), limit)[k].published, dropped[d].published; q.None? || (p.Some? && p.value >= q.value)
  {
    SortKeeps(s);
    var kept := Cut(Sort(s), limit);
    dropped := CutSplits(Sort(s), limit);
    forall k, d | 0 <= k < |kept| && 0 <= d < |dropped|
      ensures dropped[d].published.None?
        || (kept[k].published.Some? && kept[k].published.value >= dropped[d].published.value)
    {
      NothingAheadIsCut(s, kept, dropped, k, d);
    }
  }
}
