/**
  Adding, removing and replacing trackers. The loops over tiers are proved equal to functions,
  and the functions are what the results speak of: which trackers a list has afterwards, in
  which tier and in which spelling, and when the result is in normal form.
 */
module TrackerEdits {
  import opened Text
  import opened Trackers
  import TrackerText

  // ---- add ----

  /** The last tier gains the URLs whose key is not listed yet. */
  function Extended(tiers: Tiers, urls: seq<string>): Tiers
    requires tiers != []
  {
    var last := |tiers| - 1;
    tiers[last := tiers[last] + Keep(urls, Keys(Flat(tiers)))]
  }

  /** An empty list becomes one tier of the additions, which only exact repeats are taken out of. */
  function Added(tiers: Tiers, urls: seq<string>): Tiers {
    if CompactStrings(urls) == [] then Compact(tiers)
    else if Compact(tiers) == [] then [CompactStrings(urls)]
    else Extended(Compact(tiers), urls)
  }

  lemma {:induction false} FlatSnoc(tiers: Tiers, last: seq<string>)
    ensures Flat(tiers + [last]) == Flat(tiers) + last
  {
    TrackerText.FlatConcat(tiers, [last]);
    assert Flat([last]) == last + Flat([]) == last;
  }

  lemma ExtendedFlat(tiers: Tiers, urls: seq<string>)
    requires tiers != []
    ensures Flat(Extended(tiers, urls)) == Flat(tiers) + Keep(urls, Keys(Flat(tiers)))
  {
    var n := |tiers| - 1;
    var extra := Keep(urls, Keys(Flat(tiers)));
    Unsnoc(tiers);
    FlatSnoc(tiers[..n], tiers[n]);
    FlatSnoc(tiers[..n], tiers[n] + extra);
    assert Extended(tiers, urls) == tiers[..n] + [tiers[n] + extra];
  }

  lemma ExtendedIsNormal(tiers: Tiers, urls: seq<string>)
    requires tiers != [] && NormalForm(tiers)
    ensures NormalForm(Extended(tiers, urls))
    ensures Keys(Flat(Extended(tiers, urls))) == Keys(Flat(tiers)) + Keys(urls)
  {
    var extra := Keep(urls, Keys(Flat(tiers)));
    ExtendedFlat(tiers, urls);
    KeepIsFresh(urls, Keys(Flat(tiers)));
    KeepKeys(urls, Keys(Flat(tiers)));
    assert {} + Keys(Flat(tiers)) == Keys(Flat(tiers));
    FreshParts(Flat(tiers), extra, {});
    KeysConcat(Flat(tiers), extra);
  }

  lemma FlatOne(tier: seq<string>)
    ensures Flat([tier]) == tier
  {
    assert Flat([tier]) == tier + Flat([]);
  }

  lemma CompactKeys(tiers: Tiers)
    ensures Keys(Flat(Compact(tiers))) == Keys(Flat(tiers))
  {
    CompactFlat(tiers, {});
    KeepKeys(Flat(tiers), {});
  }

  /** Every tracker that was listed or asked for is listed afterwards, and no other. */
  lemma AddedKeys(tiers: Tiers, urls: seq<string>)
    ensures Keys(Flat(Added(tiers, urls))) == Keys(Flat(tiers)) + Keys(urls)
  {
    CompactKeys(tiers);
    ExactFirst(urls, {});
    if CompactStrings(urls) == [] {
      assert Keys(urls) == {};
    } else if Compact(tiers) == [] {
      FlatOne(CompactStrings(urls));
      assert Keys(Flat(tiers)) == {};
    } else {
      CompactIsNormal(tiers);
      ExtendedIsNormal(Compact(tiers), urls);
    }
  }

  /**
    The result is in normal form exactly when the list had a tracker already or no two
    additions differ in case alone.
   */
  lemma AddedIsNormalExactly(tiers: Tiers, urls: seq<string>)
    ensures NormalForm(Added(tiers, urls)) <==> Compact(tiers) != [] || Fresh(CompactStrings(urls), {})
  {
    CompactIsNormal(tiers);
    if CompactStrings(urls) != [] {
      if Compact(tiers) == [] {
        FlatOne(CompactStrings(urls));
      } else {
        ExtendedIsNormal(Compact(tiers), urls);
      }
    } else if Compact(tiers) == [] {
      assert Fresh(CompactStrings(urls), {});
    }
  }

  /**
    Additions go to the end of the last tier, in order, new ones only; every other tier stays
    as it is. A list without trackers becomes one tier of the additions.
   */
  lemma AddedGoesLast(tiers: Tiers, urls: seq<string>)
    ensures Compact(tiers) != [] ==>
      var c, r := Compact(tiers), Added(tiers, urls);
      && |r| == |c| && r[..|c| - 1] == c[..|c| - 1]
      && r[|c| - 1] == c[|c| - 1] + Keep(urls, Keys(Flat(tiers)))
    ensures Compact(tiers) == [] && CompactStrings(urls) != [] ==> Added(tiers, urls) == [CompactStrings(urls)]
    ensures CompactStrings(urls) == [] ==> Added(tiers, urls) == Compact(tiers)
  {
    CompactKeys(tiers);
    ExactFirst(urls, Keys(Flat(tiers)));
  }

  lemma TwoSpellings(a: string, b: string)
    requires a != "" && b != "" && Trimmed(a) && Trimmed(b) && a != b && Lower(a) == Lower(b)
    ensures Added([], [a, b]) == [[a, b]] && !NormalForm([[a, b]])
  {
    TrimFixesTrimmed(a);
    TrimFixesTrimmed(b);
    assert [a, b][1..] == [b] && [b][1..] == [];
    assert Text.CompactFrom([b], {a}) == [b] by { assert b !in {a}; }
    assert {} + {a} == {a};
    assert CompactStrings([a, b]) == [a] + [b] == [a, b];
    assert Added([], [a, b]) == [[a, b]] by { assert Compact([]) == []; }
    FlatOne([a, b]);
    var urls := [a, b];
    assert Lower(urls[0]) == Lower(urls[1]);
    assert !Fresh(urls, {});
  }

  /** One tracker spelled two ways, added to an empty list, is listed twice. */
  lemma AddToEmptyKeepsBothSpellings()
    ensures Added([], ["udp://a", "UDP://A"]) == [["udp://a", "UDP://A"]] && !NormalForm([["udp://a", "UDP://A"]])
  {
    var a, b := "udp://a", "UDP://A";
    assert a[0] == 'u' && a[6] == 'a' && b[0] == 'U' && b[6] == 'A';
    TwoSpellings(a, b);
  }

  function AllKeys(urls: seq<string>): set<string> {
    set u | u in urls :: Key(u)
  }

  lemma AllKeysCons(urls: seq<string>, k: nat)
    requires k < |urls|
    ensures AllKeys(urls[k..]) == {Key(urls[k])} + AllKeys(urls[k + 1..])
  {
    assert urls[k..] == [urls[k]] + urls[k + 1..];
  }

  lemma AllKeysOfFresh(urls: seq<string>)
    requires Fresh(urls, {})
    ensures AllKeys(urls) == Keys(urls)
  {
    forall u | u in urls ensures Trim(u) != "" {
      var i :| 0 <= i < |urls| && urls[i] == u;
      KeyOfTidy(u);
    }
  }

  method TrackerSet(tiers: Tiers) returns (existing: set<string>)
    ensures existing == AllKeys(Flat(tiers))
  {
    existing := {};
    for n := 0 to |tiers|
      invariant existing + AllKeys(Flat(tiers[n..])) == AllKeys(Flat(tiers))
    {
      assert tiers[n..][1..] == tiers[n + 1..] && tiers[n..][0] == tiers[n];
      ghost var before := existing;
      for k := 0 to |tiers[n]|
        invariant existing + AllKeys(tiers[n][k..]) == before + AllKeys(tiers[n])
      {
        AllKeysCons(tiers[n], k);
        existing := existing + {Lower(Trim(tiers[n][k]))};
      }
      assert AllKeys(tiers[n][|tiers[n]|..]) == {};
    }
    assert AllKeys(Flat(tiers[|tiers|..])) == {};
  }

  lemma ExtendedIsCompact(compact: Tiers, urls: seq<string>)
    requires compact != [] && NormalForm(compact)
    ensures Compact(Extended(compact, urls)) == Extended(compact, urls)
  {
    ExtendedIsNormal(compact, urls);
    CompactIsNormal(Extended(compact, urls));
  }

  method AddTrackers(tiers: Tiers, urls: seq<string>) returns (result: Tiers)
    ensures result == Added(tiers, urls)
  {
    var compact := CompactTiers(tiers);
    var additions := CompactList(urls);
    if |additions| == 0 {
      return compact;
    }
    if |compact| == 0 {
      return [additions];
    }
    var existing := TrackerSet(compact);
    CompactIsNormal(tiers);
    AllKeysOfFresh(Flat(compact));
    ExactFirst(urls, existing);
    var last := |compact| - 1;
    var tier := compact[last];
    for k := 0 to |additions|
      invariant tier + Keep(additions[k..], existing) == compact[last] + Keep(urls, Keys(Flat(compact)))
    {
      CompactedIsTidy(urls, additions, k);
      NewStep(additions, k, existing);
      MoveOne(tier, additions[k], Keep(additions[k + 1..], existing + {Lower(additions[k])}));
      var key := Lower(additions[k]);
      if key !in existing {
        existing := existing + {key};
        tier := tier + [additions[k]];
      }
    }
    assert tier + [] == tier;
    result := CompactTiers(compact[last := tier]);
    ExtendedIsCompact(compact, urls);
  }

  // ---- remove ----

  function Without(urls: seq<string>, drop: set<string>): seq<string> {
    if urls == [] then []
    else if Key(urls[0]) in drop then Without(urls[1..], drop)
    else [urls[0]] + Without(urls[1..], drop)
  }

  function WithoutTiers(tiers: Tiers, drop: set<string>): Tiers {
    if tiers == [] then []
    else
      var kept := Without(tiers[0], drop);
      (if kept == [] then [] else [kept]) + WithoutTiers(tiers[1..], drop)
  }

  function Removed(tiers: Tiers, urls: seq<string>): Tiers {
    Compact(WithoutTiers(tiers, Keys(urls)))
  }

  /** Some listed URL is one of these, ignoring case and outer spaces. */
  ghost predicate Lists(urls: seq<string>, drop: set<string>) {
    exists n :: 0 <= n < |urls| && Key(urls[n]) in drop
  }

  lemma {:induction false} WithoutConcat(a: seq<string>, b: seq<string>, drop: set<string>)
    ensures Without(a + b, drop) == Without(a, drop) + Without(b, drop)
  {
    if a == [] {
      assert a + b == b;
    } else {
      assert (a + b)[1..] == a[1..] + b && (a + b)[0] == a[0];
      WithoutConcat(a[1..], b, drop);
    }
  }

  lemma {:induction false} WithoutFlat(tiers: Tiers, drop: set<string>)
    ensures Flat(WithoutTiers(tiers, drop)) == Without(Flat(tiers), drop)
  {
    if tiers != [] {
      var kept, rest := Without(tiers[0], drop), WithoutTiers(tiers[1..], drop);
      WithoutFlat(tiers[1..], drop);
      WithoutConcat(tiers[0], Flat(tiers[1..]), drop);
      if kept == [] {
        assert WithoutTiers(tiers, drop) == rest;
      } else {
        assert ([kept] + rest)[1..] == rest;
      }
    }
  }

  lemma {:induction false} WithoutKeys(urls: seq<string>, drop: set<string>)
    ensures Keys(Without(urls, drop)) == Keys(urls) - drop
  {
    if urls != [] {
      KeysCons(urls);
      WithoutKeys(urls[1..], drop);
      if Key(urls[0]) !in drop {
        var rest := Without(urls[1..], drop);
        assert ([urls[0]] + rest)[1..] == rest;
        KeysCons([urls[0]] + rest);
      }
    }
  }

  /** Exactly the named trackers go, every spelling of them; the others keep their order and first spelling. */
  lemma RemovedExactly(tiers: Tiers, urls: seq<string>)
    ensures NormalForm(Removed(tiers, urls))
    ensures Keys(Flat(Removed(tiers, urls))) == Keys(Flat(tiers)) - Keys(urls)
    ensures Flat(Removed(tiers, urls)) == Keep(Without(Flat(tiers), Keys(urls)), {})
  {
    var next := WithoutTiers(tiers, Keys(urls));
    CompactIsNormal(next);
    CompactFlat(next, {});
    WithoutFlat(tiers, Keys(urls));
    WithoutKeys(Flat(tiers), Keys(urls));
    KeepKeys(Without(Flat(tiers), Keys(urls)), {});
  }

  lemma {:induction false} WithoutNone(urls: seq<string>, drop: set<string>)
    requires !Lists(urls, drop)
    ensures Without(urls, drop) == urls
  {
    if urls != [] {
      assert forall n :: 0 <= n < |urls[1..]| ==> urls[1..][n] == urls[n + 1];
      WithoutNone(urls[1..], drop);
    }
  }

  lemma {:induction false} WithoutAll(urls: seq<string>, drop: set<string>)
    requires forall n :: 0 <= n < |urls| ==> Key(urls[n]) in drop
    ensures Without(urls, drop) == []
  {
    if urls != [] { WithoutAll(urls[1..], drop); }
  }

  lemma {:induction false} WithoutTiersNone(tiers: Tiers, drop: set<string>)
    requires !Lists(Flat(tiers), drop) && forall n :: 0 <= n < |tiers| ==> tiers[n] != []
    ensures WithoutTiers(tiers, drop) == tiers
  {
    if tiers != [] {
      var tail := tiers[1..];
      assert forall n :: 0 <= n < |tail| ==> tail[n] == tiers[n + 1];
      assert forall n :: 0 <= n < |tiers[0]| ==> Flat(tiers)[n] == tiers[0][n];
      assert forall n :: 0 <= n < |Flat(tail)| ==> Flat(tail)[n] == Flat(tiers)[|tiers[0]| + n];
      WithoutNone(tiers[0], drop);
      WithoutTiersNone(tail, drop);
    }
  }

  lemma {:induction false} WithoutTiersSnoc(tiers: Tiers, last: seq<string>, drop: set<string>)
    ensures WithoutTiers(tiers + [last], drop) == WithoutTiers(tiers, drop) + WithoutTiers([last], drop)
  {
    if tiers == [] {
      assert tiers + [last] == [last];
    } else {
      assert (tiers + [last])[1..] == tiers[1..] + [last];
      WithoutTiersSnoc(tiers[1..], last, drop);
    }
  }

  lemma AllListed(urls: seq<string>, seen: set<string>, drop: set<string>)
    requires Fresh(urls, seen) && Keys(urls) <= drop
    ensures forall n :: 0 <= n < |urls| ==> Key(urls[n]) in drop
  {
    KeysOfFresh(urls, seen);
    forall n | 0 <= n < |urls| ensures Key(urls[n]) in drop { KeyOfTidy(urls[n]); }
  }

  lemma ExtraGoes(urls: seq<string>, seen: set<string>)
    ensures Without(Keep(urls, seen), Keys(urls)) == []
  {
    KeepIsFresh(urls, seen);
    KeepKeys(urls, seen);
    AllListed(Keep(urls, seen), seen, Keys(urls));
    WithoutAll(Keep(urls, seen), Keys(urls));
  }

  lemma WithoutLast(init: Tiers, last: seq<string>, extra: seq<string>, drop: set<string>)
    requires Without(extra, drop) == []
    ensures WithoutTiers(init + [last + extra], drop) == WithoutTiers(init + [last], drop)
  {
    WithoutTiersSnoc(init, last + extra, drop);
    WithoutTiersSnoc(init, last, drop);
    WithoutConcat(last, extra, drop);
    assert Without(last, drop) + [] == Without(last, drop);
  }

  lemma WithoutExtra(tiers: Tiers, urls: seq<string>)
    requires tiers != [] && NormalForm(tiers) && Keys(urls) !! Keys(Flat(tiers))
    ensures WithoutTiers(Extended(tiers, urls), Keys(urls)) == tiers
  {
    var n, extra := |tiers| - 1, Keep(urls, Keys(Flat(tiers)));
    Unsnoc(tiers);
    ExtraGoes(urls, Keys(Flat(tiers)));
    WithoutLast(tiers[..n], tiers[n], extra, Keys(urls));
    assert Extended(tiers, urls) == tiers[..n] + [tiers[n] + extra];
    WithoutTiersNone(tiers, Keys(urls));
  }

  /** Removing what was just added gives the list back, whatever the spelling or repetition of the additions. */
  lemma RemoveUndoesAdd(tiers: Tiers, urls: seq<string>)
    requires NormalForm(tiers) && Keys(urls) !! Keys(Flat(tiers))
    ensures Removed(Added(tiers, urls), urls) == tiers
  {
    CompactIsNormal(tiers);
    if CompactStrings(urls) == [] {
      WithoutTiersNone(tiers, Keys(urls));
    } else if tiers == [] {
      var each := CompactStrings(urls);
      forall n | 0 <= n < |each| ensures Key(each[n]) in Keys(urls) {
        CompactedIsTidy(urls, each, n);
        ExactFirst(urls, {});
        assert each[n] in each;
      }
      WithoutAll(each, Keys(urls));
      assert WithoutTiers([each], Keys(urls)) == [];
    } else {
      WithoutExtra(tiers, urls);
    }
  }

  lemma RemoveStep(tiers: Tiers, n: nat, remove: set<string>)
    requires n < |tiers|
    ensures WithoutTiers(tiers[n..], remove)
      == (var kept, rest := Without(tiers[n], remove), WithoutTiers(tiers[n + 1..], remove);
          if kept == [] then rest else [kept] + rest)
    ensures Lists(Flat(tiers[n..]), remove) <==> Lists(tiers[n], remove) || Lists(Flat(tiers[n + 1..]), remove)
  {
    assert tiers[n..][1..] == tiers[n + 1..] && tiers[n..][0] == tiers[n];
    ListsConcat(tiers[n], Flat(tiers[n + 1..]), remove);
  }

  method KeySet(urls: seq<string>) returns (keys: set<string>)
    ensures keys == Keys(urls)
  {
    keys := {};
    var each := CompactList(urls);
    ExactFirst(urls, {});
    for k := 0 to |each|
      invariant keys + Keys(each[k..]) == Keys(urls)
    {
      CompactedIsTidy(urls, each, k);
      NewStep(each, k, {});
      keys := keys + {Lower(each[k])};
    }
    assert Keys(each[|each|..]) == {};
  }

  method RemoveTrackers(tiers: Tiers, urls: seq<string>) returns (result: Tiers, removed: bool)
    ensures result == Removed(tiers, urls)
    ensures removed <==> Lists(Flat(tiers), Keys(urls))
  {
    var remove := KeySet(urls);
    var next := [];
    removed := false;
    for n := 0 to |tiers|
      invariant next + WithoutTiers(tiers[n..], remove) == WithoutTiers(tiers, remove)
      invariant removed || Lists(Flat(tiers[n..]), remove) <==> Lists(Flat(tiers), remove)
    {
      RemoveStep(tiers, n, remove);
      var kept, some := KeepOthers(tiers[n], remove);
      MoveOne(next, kept, WithoutTiers(tiers[n + 1..], remove));
      removed := removed || some;
      if |kept| > 0 {
        next := next + [kept];
      }
    }
    assert next + [] == next;
    result := CompactTiers(next);
  }

  lemma ListsConcat(a: seq<string>, b: seq<string>, drop: set<string>)
    ensures Lists(a + b, drop) <==> Lists(a, drop) || Lists(b, drop)
  {
    assert forall n :: 0 <= n < |a| ==> (a + b)[n] == a[n];
    assert forall n :: 0 <= n < |b| ==> (a + b)[|a| + n] == b[n];
  }

  method KeepOthers(tier: seq<string>, remove: set<string>) returns (kept: seq<string>, some: bool)
    ensures kept == Without(tier, remove) && (some <==> Lists(tier, remove))
  {
    kept, some := [], false;
    for k := 0 to |tier|
      invariant kept + Without(tier[k..], remove) == Without(tier, remove)
      invariant some <==> Lists(tier[..k], remove)
    {
      assert tier[k..][1..] == tier[k + 1..];
      ListsConcat(tier[..k], [tier[k]], remove);
      assert tier[..k + 1] == tier[..k] + [tier[k]];
      if Lower(Trim(tier[k])) in remove {
        assert Key([tier[k]][0]) in remove;
        some := true;
        continue;
      }
      MoveOne(kept, tier[k], Without(tier[k + 1..], remove));
      kept := kept + [tier[k]];
    }
    assert tier[..|tier|] == tier && kept + [] == kept;
  }

  // ---- replace ----

  function Swap(urls: seq<string>, key: string, url: string): (r: seq<string>)
    ensures |r| == |urls|
    ensures forall i :: 0 <= i < |urls| ==> r[i] == if Key(urls[i]) == key then url else urls[i]
  {
    seq(|urls|, i requires 0 <= i < |urls| => if Key(urls[i]) == key then url else urls[i])
  }

  function SwapTiers(tiers: Tiers, key: string, url: string): (r: Tiers)
    ensures |r| == |tiers|
    ensures forall n :: 0 <= n < |tiers| ==> r[n] == Swap(tiers[n], key, url)
  {
    seq(|tiers|, n requires 0 <= n < |tiers| => Swap(tiers[n], key, url))
  }

  lemma {:induction false} SwapFlat(tiers: Tiers, key: string, url: string)
    ensures Flat(SwapTiers(tiers, key, url)) == Swap(Flat(tiers), key, url)
  {
    if tiers != [] {
      SwapFlat(tiers[1..], key, url);
      assert SwapTiers(tiers, key, url)[1..] == SwapTiers(tiers[1..], key, url);
    }
  }

  lemma {:induction false} SwapKeys(urls: seq<string>, key: string, url: string)
    requires key != "" && Trim(url) != ""
    ensures Keys(Swap(urls, key, url)) == (Keys(urls) - {key}) + if key in Keys(urls) then {Key(url)} else {}
  {
    if urls != [] {
      SwapKeys(urls[1..], key, url);
      KeysCons(urls);
      KeysCons(Swap(urls, key, url));
      assert Swap(urls, key, url)[1..] == Swap(urls[1..], key, url);
    }
  }

  lemma NewSpelling(urls: seq<string>, key: string, url: string)
    requires key != "" && url != "" && Trim(url) == url && key in Keys(urls) && Key(url) !in Keys(urls) - {key}
    ensures url in Keep(Swap(urls, key, url), {})
  {
    var swapped := Swap(urls, key, url);
    var r := Keep(swapped, {});
    SwapKeys(urls, key, url);
    KeepKeys(swapped, {});
    assert Key(url) in Keys(r);
    var x :| x in r && Trim(x) != "" && Key(x) == Key(url);
    KeptFromInput(swapped, {}, x);
    var k :| 0 <= k < |swapped| && Trim(swapped[k]) == x;
    TrimIdempotent(swapped[k]);
    if Trim(urls[k]) != "" { assert urls[k] in urls && Key(urls[k]) in Keys(urls); }
    assert Key(urls[k]) == key;
  }

  /**
    A replaced tracker is gone, unless the new one is another spelling of it; the new one is
    listed, and nothing else changes.
   */
  lemma ReplacedExactly(tiers: Tiers, original: string, url: string)
    requires Key(original) != "" && Trim(url) != ""
    ensures var r := Compact(SwapTiers(tiers, Key(original), Trim(url)));
      && NormalForm(r)
      && Keys(Flat(r))
          == (Keys(Flat(tiers)) - {Key(original)}) + (if Key(original) in Keys(Flat(tiers)) then {Key(url)} else {})
  {
    var swapped := SwapTiers(tiers, Key(original), Trim(url));
    TrimIdempotent(url);
    SwapFlat(tiers, Key(original), Trim(url));
    SwapKeys(Flat(tiers), Key(original), Trim(url));
    CompactIsNormal(swapped);
    CompactKeys(swapped);
  }

  /** The new tracker is spelled as given, unless the list already had it. */
  lemma ReplacedSpelling(tiers: Tiers, original: string, url: string)
    requires Key(original) != "" && Trim(url) != ""
    requires Key(original) in Keys(Flat(tiers)) && Key(url) !in Keys(Flat(tiers)) - {Key(original)}
    ensures Trim(url) in Flat(Compact(SwapTiers(tiers, Key(original), Trim(url))))
  {
    TrimIdempotent(url);
    NewSpelling(Flat(tiers), Key(original), Trim(url));
    SwapFlat(tiers, Key(original), Trim(url));
    CompactFlat(SwapTiers(tiers, Key(original), Trim(url)), {});
  }

  lemma {:induction false} KeptFromInput(urls: seq<string>, seen: set<string>, x: string)
    requires x in Keep(urls, seen)
    ensures exists k :: 0 <= k < |urls| && Trim(urls[k]) == x
  {
    if Trim(urls[0]) == "" || Key(urls[0]) in seen {
      KeptFromInput(urls[1..], seen, x);
      var k :| 0 <= k < |urls[1..]| && Trim(urls[1..][k]) == x;
      assert urls[k + 1] == urls[1..][k];
    } else if x != Trim(urls[0]) {
      KeptFromInput(urls[1..], seen + {Key(urls[0])}, x);
      var k :| 0 <= k < |urls[1..]| && Trim(urls[1..][k]) == x;
      assert urls[k + 1] == urls[1..][k];
    }
  }

  /** The key is listed at this position and nowhere else. */
  ghost predicate OnlyAt(urls: seq<string>, key: string, n: int) {
    && 0 <= n < |urls| && Key(urls[n]) == key
    && forall m :: 0 <= m < |urls| && m != n ==> Key(urls[m]) != key
  }

  /** In normal form a listed tracker is listed once. */
  lemma UniqueInNormal(tiers: Tiers, key: string)
    requires NormalForm(tiers) && key in Keys(Flat(tiers))
    ensures exists n :: OnlyAt(Flat(tiers), key, n)
  {
    var urls := Flat(tiers);
    KeysOfFresh(urls, {});
    var n :| 0 <= n < |urls| && Lower(urls[n]) == key;
    forall m | 0 <= m < |urls| ensures Key(urls[m]) == Lower(urls[m]) { KeyOfTidy(urls[m]); }
    assert OnlyAt(urls, key, n);
  }

  /** Writes the new URL over every spelling of the original, in place. */
  method ReplaceTracker(tiers: array<seq<string>>, original: string, url: string)
      returns (result: Tiers, replaced: bool)
    modifies tiers
    ensures Key(original) == "" || Trim(url) == "" ==> !replaced && tiers[..] == old(tiers[..]) && result == tiers[..]
    ensures Key(original) != "" && Trim(url) != "" ==>
      && tiers[..] == SwapTiers(old(tiers[..]), Key(original), Trim(url)) && result == Compact(tiers[..])
      && (replaced <==> Lists(Flat(old(tiers[..])), {Key(original)}))
  {
    var originalKey, newUrl := Lower(Trim(original)), Trim(url);
    if originalKey == "" || newUrl == "" {
      return tiers[..], false;
    }
    replaced := false;
    ghost var was := tiers[..];
    for n := 0 to tiers.Length
      invariant forall m :: 0 <= m < tiers.Length ==>
          tiers[m] == if m < n then Swap(was[m], originalKey, newUrl) else was[m]
      invariant replaced || Lists(Flat(was[n..]), {originalKey}) <==> Lists(Flat(was), {originalKey})
    {
      assert was[n..][1..] == was[n + 1..] && was[n..][0] == was[n];
      ListsConcat(was[n], Flat(was[n + 1..]), {originalKey});
      var some := SwapTier(tiers, n, originalKey, newUrl);
      replaced := replaced || some;
    }
    assert tiers[..] == SwapTiers(was, originalKey, newUrl);
    assert Flat(was[tiers.Length..]) == [];
    result := CompactTiers(tiers[..]);
  }

  method SwapTier(tiers: array<seq<string>>, n: nat, key: string, url: string) returns (some: bool)
    requires n < tiers.Length
    modifies tiers
    ensures forall m :: 0 <= m < tiers.Length ==>
        tiers[m] == if m == n then Swap(old(tiers[n]), key, url) else old(tiers[m])
    ensures some <==> Lists(old(tiers[n]), {key})
  {
    some := false;
    ghost var was := tiers[n];
    var size := |tiers[n]|;
    for k := 0 to size
      invariant |tiers[n]| == |was|
      invariant forall i :: 0 <= i < |was| ==> tiers[n][i] == if i < k && Key(was[i]) == key then url else was[i]
      invariant forall m :: 0 <= m < tiers.Length && m != n ==> tiers[m] == old(tiers[m])
      invariant some <==> Lists(was[..k], {key})
    {
      assert was[..k + 1] == was[..k] + [was[k]];
      ListsConcat(was[..k], [was[k]], {key});
      if Lower(Trim(tiers[n][k])) == key {
        assert Key([was[k]][0]) in {key};
        tiers[n] := tiers[n][k := url];
        some := true;
      }
    }
    assert was[..|was|] == was;
    assert tiers[n] == Swap(was, key, url);
  }
}
