/**
  Transmission's tracker list: tiers of URLs, printed one URL a line with a blank line
  between tiers, and the edits the download actions make to it.
 */
module Trackers {
  import opened Text

  type Tiers = seq<seq<string>>

  /** URLs are compared trimmed and ignoring case. */
  function Key(url: string): string { Lower(Trim(url)) }

  function Keys(urls: seq<string>): set<string> {
    set u | u in urls && Trim(u) != "" :: Key(u)
  }

  function Flat(tiers: Tiers): seq<string> {
    if tiers == [] then [] else tiers[0] + Flat(tiers[1..])
  }

  // ---- the normal form ----

  /** Trimmed, non-blank URLs whose key has not been seen, first occurrences only. */
  function Keep(urls: seq<string>, seen: set<string>): seq<string> {
    if urls == [] then []
    else if Trim(urls[0]) == "" || Key(urls[0]) in seen then Keep(urls[1..], seen)
    else [Trim(urls[0])] + Keep(urls[1..], seen + {Key(urls[0])})
  }

  function CompactTiersFrom(tiers: Tiers, seen: set<string>): Tiers {
    if tiers == [] then []
    else
      var kept := Keep(tiers[0], seen);
      (if kept == [] then [] else [kept]) + CompactTiersFrom(tiers[1..], seen + Keys(tiers[0]))
  }

  function Compact(tiers: Tiers): Tiers { CompactTiersFrom(tiers, {}) }

  /** Tidy URLs whose keys are new and differ from one another. */
  ghost predicate Fresh(urls: seq<string>, seen: set<string>) {
    && (forall i :: 0 <= i < |urls| ==> urls[i] != "" && Trimmed(urls[i]) && Lower(urls[i]) !in seen)
    && (forall i, j :: 0 <= i < j < |urls| ==> Lower(urls[i]) != Lower(urls[j]))
  }

  ghost predicate NormalForm(tiers: Tiers) {
    (forall n :: 0 <= n < |tiers| ==> tiers[n] != []) && Fresh(Flat(tiers), {})
  }

  lemma KeyOfTidy(url: string)
    requires Trimmed(url)
    ensures Trim(url) == url && Key(url) == Lower(url)
  {
    TrimFixesTrimmed(url);
  }

  lemma KeysOfFresh(urls: seq<string>, seen: set<string>)
    requires Fresh(urls, seen)
    ensures forall k :: k in Keys(urls) <==> exists i :: 0 <= i < |urls| && Lower(urls[i]) == k
  {
    forall i | 0 <= i < |urls|
      ensures Trim(urls[i]) == urls[i] && Key(urls[i]) == Lower(urls[i]) && Lower(urls[i]) in Keys(urls)
    {
      KeyOfTidy(urls[i]);
      assert urls[i] in urls;
    }
  }

  lemma KeysCons(urls: seq<string>)
    requires urls != []
    ensures Keys(urls) == Keys(urls[1..]) + if Trim(urls[0]) == "" then {} else {Key(urls[0])}
  {
    assert urls == [urls[0]] + urls[1..];
  }

  lemma KeysConcat(a: seq<string>, b: seq<string>)
    ensures Keys(a + b) == Keys(a) + Keys(b)
  {}

  lemma {:induction false} KeepIsFresh(urls: seq<string>, seen: set<string>)
    ensures Fresh(Keep(urls, seen), seen)
  {
    if urls != [] {
      var more := seen + {Key(urls[0])};
      KeepIsFresh(urls[1..], seen);
      KeepIsFresh(urls[1..], more);
      TrimSpec(urls[0]);
      var rest := Keep(urls[1..], more);
      assert forall i :: 0 <= i < |rest| ==> Lower(rest[i]) !in more;
    }
  }

  lemma {:induction false} KeepFixesFresh(urls: seq<string>, seen: set<string>)
    requires Fresh(urls, seen)
    ensures Keep(urls, seen) == urls
  {
    if urls != [] {
      KeyOfTidy(urls[0]);
      var tail := urls[1..];
      assert forall i :: 0 <= i < |tail| ==> tail[i] == urls[i + 1];
      assert Fresh(tail, seen + {Key(urls[0])});
      KeepFixesFresh(tail, seen + {Key(urls[0])});
    }
  }

  /** What is kept is every key given that was not already seen. */
  lemma {:induction false} KeepKeys(urls: seq<string>, seen: set<string>)
    ensures Keys(Keep(urls, seen)) == Keys(urls) - seen
  {
    if urls != [] {
      KeysCons(urls);
      if Trim(urls[0]) == "" || Key(urls[0]) in seen {
        KeepKeys(urls[1..], seen);
      } else {
        var more := seen + {Key(urls[0])};
        KeepKeys(urls[1..], more);
        TrimIdempotent(urls[0]);
        KeysCons([Trim(urls[0])] + Keep(urls[1..], more));
        assert ([Trim(urls[0])] + Keep(urls[1..], more))[1..] == Keep(urls[1..], more);
      }
    }
  }

  lemma {:induction false} KeepConcat(a: seq<string>, b: seq<string>, seen: set<string>)
    ensures Keep(a + b, seen) == Keep(a, seen) + Keep(b, seen + Keys(a))
  {
    if a == [] {
      assert a + b == b;
      assert seen + Keys(a) == seen;
    } else {
      assert (a + b)[1..] == a[1..] + b && (a + b)[0] == a[0];
      KeysCons(a);
      if Trim(a[0]) == "" || Key(a[0]) in seen {
        KeepConcat(a[1..], b, seen);
        assert seen + Keys(a) == seen + Keys(a[1..]);
      } else {
        KeepConcat(a[1..], b, seen + {Key(a[0])});
        assert seen + Keys(a) == seen + {Key(a[0])} + Keys(a[1..]);
      }
    }
  }

  /** Reading across tiers, compaction keeps exactly what one long tier would keep. */
  lemma {:induction false} CompactFlat(tiers: Tiers, seen: set<string>)
    ensures Flat(CompactTiersFrom(tiers, seen)) == Keep(Flat(tiers), seen)
    ensures forall n :: 0 <= n < |CompactTiersFrom(tiers, seen)| ==> CompactTiersFrom(tiers, seen)[n] != []
  {
    if tiers != [] {
      var rest := CompactTiersFrom(tiers[1..], seen + Keys(tiers[0]));
      CompactFlat(tiers[1..], seen + Keys(tiers[0]));
      KeepConcat(tiers[0], Flat(tiers[1..]), seen);
      var kept := Keep(tiers[0], seen);
      if kept == [] {
        assert CompactTiersFrom(tiers, seen) == rest;
      } else {
        assert ([kept] + rest)[1..] == rest;
      }
    }
  }

  lemma {:induction false} CompactFixes(tiers: Tiers, seen: set<string>)
    requires (forall n :: 0 <= n < |tiers| ==> tiers[n] != []) && Fresh(Flat(tiers), seen)
    ensures CompactTiersFrom(tiers, seen) == tiers
  {
    if tiers != [] {
      var tail := tiers[1..];
      FreshParts(tiers[0], Flat(tail), seen);
      KeepFixesFresh(tiers[0], seen);
      assert forall n :: 0 <= n < |tail| ==> tail[n] == tiers[n + 1];
      CompactFixes(tail, seen + Keys(tiers[0]));
    }
  }

  lemma FreshParts(a: seq<string>, b: seq<string>, seen: set<string>)
    ensures Fresh(a + b, seen) <==> Fresh(a, seen) && Fresh(b, seen + Keys(a))
  {
    var all := a + b;
    if Fresh(all, seen) {
      assert forall i :: 0 <= i < |a| ==> a[i] == all[i];
      assert forall j :: 0 <= j < |b| ==> b[j] == all[|a| + j];
      KeysOfFresh(a, seen);
    }
    if Fresh(a, seen) && Fresh(b, seen + Keys(a)) {
      KeysOfFresh(a, seen);
      forall i, j | 0 <= i < j < |all| ensures Lower(all[i]) != Lower(all[j]) {
        if i < |a| <= j {
          assert Lower(a[i]) in Keys(a);
          assert Lower(b[j - |a|]) !in seen + Keys(a);
        }
      }
    }
  }

  /** Compaction yields the normal form and leaves it alone: it is idempotent. */
  lemma CompactIsNormal(tiers: Tiers)
    ensures NormalForm(Compact(tiers))
    ensures NormalForm(tiers) ==> Compact(tiers) == tiers
    ensures Compact(Compact(tiers)) == Compact(tiers)
  {
    CompactFlat(tiers, {});
    KeepIsFresh(Flat(tiers), {});
    CompactFixes(Compact(tiers), {});
    if NormalForm(tiers) { CompactFixes(tiers, {}); }
  }

  // ---- first occurrences ----

  /** The URL at position k is the first of its key and not blank. */
  ghost predicate FirstAt(urls: seq<string>, seen: set<string>, k: int)
    requires 0 <= k < |urls|
  {
    Trim(urls[k]) != "" && Key(urls[k]) !in seen && forall j :: 0 <= j < k ==> Key(urls[j]) != Key(urls[k])
  }

  /** The positions a compaction keeps, ascending. */
  ghost function KeptAt(urls: seq<string>, seen: set<string>, from: nat): seq<nat>
    requires from <= |urls|
    decreases |urls| - from
  {
    if from == |urls| then []
    else if FirstAt(urls, seen, from) then [from] + KeptAt(urls, seen, from + 1)
    else KeptAt(urls, seen, from + 1)
  }

  /** These are, ascending, exactly the first occurrences from this position on. */
  ghost predicate FirstsFrom(urls: seq<string>, seen: set<string>, from: nat, at: seq<nat>) {
    && (forall n :: 0 <= n < |at| ==> from <= at[n] < |urls| && FirstAt(urls, seen, at[n]))
    && (forall m, n :: 0 <= m < n < |at| ==> at[m] < at[n])
    && (forall k :: from <= k < |urls| && FirstAt(urls, seen, k) ==> k in at)
  }

  lemma FirstsFromStep(urls: seq<string>, seen: set<string>, from: nat, rest: seq<nat>)
    requires from < |urls| && FirstsFrom(urls, seen, from + 1, rest)
    ensures FirstsFrom(urls, seen, from, if FirstAt(urls, seen, from) then [from] + rest else rest)
  {
    if FirstAt(urls, seen, from) {
      var at := [from] + rest;
      forall k | from <= k < |urls| && FirstAt(urls, seen, k) ensures k in at {
        if k == from {
          assert at[0] == k;
        } else {
          var n :| 0 <= n < |rest| && rest[n] == k;
          assert at[n + 1] == k;
        }
      }
    }
  }

  lemma {:induction false} KeptAtSpec(urls: seq<string>, seen: set<string>, from: nat)
    requires from <= |urls|
    ensures FirstsFrom(urls, seen, from, KeptAt(urls, seen, from))
    decreases |urls| - from
  {
    if from < |urls| {
      KeptAtSpec(urls, seen, from + 1);
      FirstsFromStep(urls, seen, from, KeptAt(urls, seen, from + 1));
    }
  }

  lemma KeepStep(urls: seq<string>, seen: set<string>, from: nat)
    requires from < |urls|
    ensures Keep(urls[from..], seen + Keys(urls[..from]))
      == (var rest := Keep(urls[from + 1..], seen + Keys(urls[..from + 1]));
          if FirstAt(urls, seen, from) then [Trim(urls[from])] + rest else rest)
  {
    var before := urls[..from];
    assert urls[from..][1..] == urls[from + 1..];
    assert urls[..from + 1] == before + [urls[from]];
    KeysConcat(before, [urls[from]]);
    FirstExactly(urls, seen, from);
    var more := seen + Keys(urls[..from + 1]);
    if FirstAt(urls, seen, from) {
      assert more == seen + Keys(before) + {Key(urls[from])};
    } else {
      assert more == seen + Keys(before);
    }
  }

  lemma {:induction false} KeepIsFirstsFrom(urls: seq<string>, seen: set<string>, from: nat)
    requires from <= |urls|
    ensures Keep(urls[from..], seen + Keys(urls[..from])) == TrimmedAt(urls, KeptAt(urls, seen, from))
    decreases |urls| - from
  {
    if from < |urls| {
      KeepIsFirstsFrom(urls, seen, from + 1);
      KeepStep(urls, seen, from);
      TrimmedAtCons(urls, from, KeptAt(urls, seen, from + 1));
    }
  }

  /** The URLs at these positions, trimmed. */
  function TrimmedAt(urls: seq<string>, at: seq<nat>): (r: seq<string>)
    ensures |r| == |at| && forall n :: 0 <= n < |at| && at[n] < |urls| ==> r[n] == Trim(urls[at[n]])
  {
    if at == [] then [] else [if at[0] < |urls| then Trim(urls[at[0]]) else ""] + TrimmedAt(urls, at[1..])
  }

  lemma TrimmedAtCons(urls: seq<string>, k: nat, at: seq<nat>)
    requires k < |urls|
    ensures TrimmedAt(urls, [k] + at) == [Trim(urls[k])] + TrimmedAt(urls, at)
  {
    assert ([k] + at)[1..] == at;
  }

  lemma FirstExactly(urls: seq<string>, seen: set<string>, k: nat)
    requires k < |urls|
    ensures FirstAt(urls, seen, k) <==> Trim(urls[k]) != "" && Key(urls[k]) !in seen + Keys(urls[..k])
    ensures Keys([urls[k]]) == if Trim(urls[k]) == "" then {} else {Key(urls[k])}
  {
    KeysCons([urls[k]]);
    if Trim(urls[k]) != "" {
      forall j | 0 <= j < k && Key(urls[j]) == Key(urls[k]) ensures Key(urls[k]) in Keys(urls[..k]) {
        assert |Key(urls[j])| == |Trim(urls[j])| && |Key(urls[k])| == |Trim(urls[k])|;
        assert urls[..k][j] == urls[j] && urls[j] in urls[..k];
      }
      if Key(urls[k]) in Keys(urls[..k]) {
        var u :| u in urls[..k] && Trim(u) != "" && Key(u) == Key(urls[k]);
        var j :| 0 <= j < k && urls[..k][j] == u;
        assert urls[j] == u;
      }
    }
  }

  /** Compaction keeps, across all tiers and in order, exactly the first URL of each key. */
  lemma CompactKeepsFirsts(tiers: Tiers) returns (at: seq<nat>)
    ensures |Flat(Compact(tiers))| == |at|
    ensures forall n :: 0 <= n < |at| ==> at[n] < |Flat(tiers)| && Flat(Compact(tiers))[n] == Trim(Flat(tiers)[at[n]])
    ensures FirstsFrom(Flat(tiers), {}, 0, at)
  {
    var urls := Flat(tiers);
    at := KeptAt(urls, {}, 0);
    CompactFlat(tiers, {});
    KeptAtSpec(urls, {}, 0);
    KeepIsFirstsFrom(urls, {}, 0);
    assert urls[0..] == urls && {} + Keys(urls[..0]) == {};
  }

  // ---- compactStrings ----

  lemma {:induction false} KeepOfCompacted(urls: seq<string>, exact: set<string>, seen: set<string>)
    requires forall v :: v in exact ==> Lower(v) in seen
    ensures Keep(Text.CompactFrom(urls, exact), seen) == Keep(urls, seen)
    decreases urls
  {
    if urls != [] {
      var v := Trim(urls[0]);
      if v == "" || v in exact {
        KeepOfCompacted(urls[1..], exact, seen);
      } else {
        TrimIdempotent(urls[0]);
        var rest := Text.CompactFrom(urls[1..], exact + {v});
        assert ([v] + rest)[1..] == rest;
        KeepOfCompacted(urls[1..], exact + {v}, seen + {Lower(v)});
        if Lower(v) in seen { assert seen + {Lower(v)} == seen; }
      }
    }
  }

  lemma KeysOfCompacted(urls: seq<string>)
    ensures Keys(CompactStrings(urls)) == Keys(urls)
  {
    var each := CompactStrings(urls);
    forall k | k in Keys(urls) ensures k in Keys(each) {
      var u :| u in urls && Trim(u) != "" && Key(u) == k;
      var n :| 0 <= n < |urls| && urls[n] == u;
      CompactContents(urls, {}, Trim(u));
      TrimIdempotent(u);
      assert Trim(u) in each;
    }
    forall k | k in Keys(each) ensures k in Keys(urls) {
      var x :| x in each && Trim(x) != "" && Key(x) == k;
      CompactContents(urls, {}, x);
      var n :| 0 <= n < |urls| && Trim(urls[n]) == x;
      TrimIdempotent(urls[n]);
      assert urls[n] in urls;
    }
  }

  /** Exact deduplication first changes nothing for one that ignores case. */
  lemma ExactFirst(urls: seq<string>, seen: set<string>)
    ensures Keep(CompactStrings(urls), seen) == Keep(urls, seen) && Keys(CompactStrings(urls)) == Keys(urls)
  {
    KeepOfCompacted(urls, {}, seen);
    KeysOfCompacted(urls);
  }

  method CompactList(values: seq<string>) returns (compacted: seq<string>)
    ensures compacted == CompactStrings(values)
  {
    compacted := [];
    var seen := {};
    for n := 0 to |values|
      invariant compacted + Text.CompactFrom(values[n..], seen) == CompactStrings(values)
    {
      var value := Trim(values[n]);
      assert values[n..][1..] == values[n + 1..];
      if value != "" && value !in seen {
        seen := seen + {value};
        compacted := compacted + [value];
      }
    }
  }

  lemma NewStep(each: seq<string>, k: nat, seen: set<string>)
    requires k < |each| && each[k] != "" && Trim(each[k]) == each[k]
    ensures Keep(each[k..], seen)
      == if Lower(each[k]) in seen then Keep(each[k + 1..], seen)
          else [each[k]] + Keep(each[k + 1..], seen + {Lower(each[k])})
    ensures Keys(each[k..]) == {Lower(each[k])} + Keys(each[k + 1..])
  {
    assert each[k..][1..] == each[k + 1..];
    KeysCons(each[k..]);
  }

  lemma CompactStep(tiers: Tiers, n: nat, seen: set<string>)
    requires n < |tiers|
    ensures CompactTiersFrom(tiers[n..], seen)
      == (var kept, rest := Keep(tiers[n], seen), CompactTiersFrom(tiers[n + 1..], seen + Keys(tiers[n]));
          if kept == [] then rest else [kept] + rest)
  {
    assert tiers[n..][1..] == tiers[n + 1..] && tiers[n..][0] == tiers[n];
  }

  lemma MoveOne<T>(a: seq<T>, x: T, b: seq<T>)
    ensures a + ([x] + b) == (a + [x]) + b
  {}

  /** The tier's URLs not yet seen, and everything seen once the tier is done. */
  method KeepNew(tier: seq<string>, before: set<string>) returns (urls: seq<string>, seen: set<string>)
    ensures urls == Keep(tier, before) && seen == before + Keys(tier)
  {
    var each := CompactList(tier);
    ExactFirst(tier, before);
    urls, seen := [], before;
    for k := 0 to |each|
      invariant urls + Keep(each[k..], seen) == Keep(tier, before)
      invariant seen + Keys(each[k..]) == before + Keys(tier)
    {
      CompactedIsTidy(tier, each, k);
      NewStep(each, k, seen);
      MoveOne(urls, each[k], Keep(each[k + 1..], seen + {Lower(each[k])}));
      var key := Lower(each[k]);
      if key !in seen {
        seen := seen + {key};
        urls := urls + [each[k]];
      }
    }
    assert Keys(each[|each|..]) == {};
  }

  method CompactTiers(tiers: Tiers) returns (compact: Tiers)
    ensures compact == Compact(tiers)
  {
    compact := [];
    var seen := {};
    for n := 0 to |tiers|
      invariant compact + CompactTiersFrom(tiers[n..], seen) == Compact(tiers)
    {
      CompactStep(tiers, n, seen);
      var urls;
      urls, seen := KeepNew(tiers[n], seen);
      MoveOne(compact, urls, CompactTiersFrom(tiers[n + 1..], seen));
      if |urls| > 0 {
        compact := compact + [urls];
      }
    }
  }

  lemma CompactedIsTidy(urls: seq<string>, each: seq<string>, k: nat)
    requires each == CompactStrings(urls) && k < |each|
    ensures each[k] != "" && Trim(each[k]) == each[k] && Key(each[k]) == Lower(each[k])
  {
    CompactContents(urls, {}, each[k]);
    var j :| 0 <= j < |urls| && Trim(urls[j]) == each[k];
    TrimIdempotent(urls[j]);
  }
}
