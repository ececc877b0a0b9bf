/**
  Tracker lists as text: tiers of URLs, one a line, with a blank line between tiers. The
  loops that read and print such a text are proved equal to functions, and reading back
  what was printed is the normal form exactly when no kept URL has a newline inside.
 */
module TrackerText {
  import opened Text
  import opened Trackers

  // ---- strings.Split at newlines, strings.Join ----

  function Split(s: string): (lines: seq<string>)
    ensures lines != []
  {
    if s == "" then [""]
    else if s[0] == '\n' then [""] + Split(s[1..])
    else var rest := Split(s[1..]); [[s[0]] + rest[0]] + rest[1..]
  }

  function Join(parts: seq<string>, sep: string): string {
    if parts == [] then "" else if |parts| == 1 then parts[0] else parts[0] + sep + Join(parts[1..], sep)
  }

  lemma {:induction false} SplitWhole(s: string)
    requires '\n' !in s
    ensures Split(s) == [s]
  {
    if s != "" {
      SplitWhole(s[1..]);
      assert s == [s[0]] + s[1..];
    }
  }

  lemma {:induction false} SplitAt(a: string, b: string)
    ensures Split(a + "\n" + b) == Split(a) + Split(b)
  {
    var all := a + "\n" + b;
    if a == "" {
      assert all[1..] == b;
    } else {
      assert all[1..] == a[1..] + "\n" + b && all[0] == a[0];
      SplitAt(a[1..], b);
    }
  }

  lemma {:induction false} LinesHaveNoNewline(s: string)
    ensures forall n :: 0 <= n < |Split(s)| ==> '\n' !in Split(s)[n]
  {
    if s != "" { LinesHaveNoNewline(s[1..]); }
  }

  lemma {:induction false} SplitJoin(lines: seq<string>)
    requires lines != [] && forall n :: 0 <= n < |lines| ==> '\n' !in lines[n]
    ensures Split(Join(lines, "\n")) == lines
  {
    SplitWhole(lines[0]);
    if |lines| > 1 {
      SplitAt(lines[0], Join(lines[1..], "\n"));
      SplitJoin(lines[1..]);
    }
  }

  // ---- format ----

  function Blocks(tiers: Tiers): seq<string> {
    if tiers == [] then [] else [Join(tiers[0], "\n")] + Blocks(tiers[1..])
  }

  function Format(tiers: Tiers): string {
    Join(Blocks(Compact(tiers)), "\n\n")
  }

  method FormatTrackerList(tiers: Tiers) returns (text: string)
    ensures text == Format(tiers)
  {
    var compact := CompactTiers(tiers);
    if |compact| == 0 {
      return "";
    }
    var blocks := [];
    for n := 0 to |compact|
      invariant blocks + Blocks(compact[n..]) == Blocks(compact)
    {
      assert compact[n..][1..] == compact[n + 1..];
      MoveOne(blocks, Join(compact[n], "\n"), Blocks(compact[n + 1..]));
      blocks := blocks + [Join(compact[n], "\n")];
    }
    assert blocks + [] == blocks;
    return Join(blocks, "\n\n");
  }

  /** The printed lines: the tiers, one blank line between. */
  function Lines(tiers: Tiers): seq<string> {
    if tiers == [] then [] else if |tiers| == 1 then tiers[0] else tiers[0] + [""] + Lines(tiers[1..])
  }

  lemma OneLineParts(tiers: Tiers)
    requires tiers != [] && OneLine(Flat(tiers))
    ensures OneLine(tiers[0]) && OneLine(Flat(tiers[1..]))
  {
    assert forall n :: 0 <= n < |tiers[0]| ==> Flat(tiers)[n] == tiers[0][n];
    assert forall n :: 0 <= n < |Flat(tiers[1..])| ==> Flat(tiers[1..])[n] == Flat(tiers)[|tiers[0]| + n];
  }

  lemma SplitBlocks(block: string, rest: string)
    ensures Split(block + "\n\n" + rest) == Split(block) + [""] + Split(rest)
  {
    SplitAt(block, "\n" + rest);
    SplitAt("", rest);
    assert "" + "\n" + rest == "\n" + rest;
    assert block + "\n\n" + rest == block + "\n" + ("\n" + rest);
  }

  lemma {:induction false} SplitPrinted(tiers: Tiers)
    requires tiers != [] && OneLine(Flat(tiers)) && forall n :: 0 <= n < |tiers| ==> tiers[n] != []
    ensures Split(Join(Blocks(tiers), "\n\n")) == Lines(tiers)
  {
    var tail := tiers[1..];
    OneLineParts(tiers);
    SplitJoin(tiers[0]);
    assert Blocks(tiers)[1..] == Blocks(tail);
    if |tiers| > 1 {
      assert forall n :: 0 <= n < |tail| ==> tail[n] == tiers[n + 1];
      SplitPrinted(tail);
      SplitBlocks(Join(tiers[0], "\n"), Join(Blocks(tail), "\n\n"));
    } else {
      assert tail == [];
    }
  }

  // ---- parse ----

  /** A tier being read ends at a blank line or at the end. */
  function Close(current: seq<string>): Tiers {
    if current == [] then [] else [CompactStrings(current)]
  }

  function ParseLines(lines: seq<string>, current: seq<string>): Tiers {
    if lines == [] then Close(current)
    else if Trim(lines[0]) == "" then Close(current) + ParseLines(lines[1..], [])
    else ParseLines(lines[1..], current + [Trim(lines[0])])
  }

  function Parse(value: string): Tiers {
    Compact(ParseLines(Split(value), []))
  }

  method ParseTrackerList(value: string) returns (result: Tiers)
    ensures result == Parse(value)
  {
    var lines := Split(value);
    var tiers, current := [], [];
    for n := 0 to |lines|
      invariant tiers + ParseLines(lines[n..], current) == ParseLines(lines, [])
    {
      assert lines[n..][1..] == lines[n + 1..];
      var url := Trim(lines[n]);
      if url == "" {
        if |current| > 0 {
          var tier := CompactList(current);
          MoveOne(tiers, tier, ParseLines(lines[n + 1..], []));
          tiers := tiers + [tier];
          current := [];
        }
        continue;
      }
      current := current + [url];
    }
    if |current| > 0 {
      var tier := CompactList(current);
      tiers := tiers + [tier];
    } else {
      assert tiers + [] == tiers;
    }
    result := CompactTiers(tiers);
  }

  // ---- what a text lists ----

  lemma {:induction false} LinesConcat(a: seq<string>, blank: string, b: seq<string>, current: seq<string>)
    requires Trim(blank) == ""
    ensures ParseLines(a + [blank] + b, current) == ParseLines(a, current) + ParseLines(b, [])
  {
    var all := a + [blank] + b;
    if a == [] {
      assert all[1..] == b && all[0] == blank;
    } else {
      assert all[1..] == a[1..] + [blank] + b && all[0] == a[0];
      LinesConcat(a[1..], blank, b, []);
      LinesConcat(a[1..], blank, b, current + [Trim(a[0])]);
    }
  }

  lemma {:induction false} KeepTwice(urls: seq<string>, inner: set<string>, outer: set<string>)
    requires inner <= outer
    ensures Keep(Keep(urls, inner), outer) == Keep(urls, outer)
  {
    if urls != [] && Trim(urls[0]) != "" && Key(urls[0]) !in inner {
      var key, rest := Key(urls[0]), Keep(urls[1..], inner + {Key(urls[0])});
      TrimIdempotent(urls[0]);
      assert ([Trim(urls[0])] + rest)[1..] == rest;
      KeepTwice(urls[1..], inner + {key}, outer + {key});
      if key in outer { assert outer + {key} == outer; }
    } else if urls != [] {
      KeepTwice(urls[1..], inner, outer);
    }
  }

  lemma CompactCons(tier: seq<string>, rest: Tiers, seen: set<string>)
    ensures CompactTiersFrom([tier] + rest, seen)
      == (if Keep(tier, seen) == [] then [] else [Keep(tier, seen)]) + CompactTiersFrom(rest, seen + Keys(tier))
  {
    assert ([tier] + rest)[1..] == rest;
  }

  lemma TwiceStep(tier: seq<string>, tail: Tiers, kept: seq<string>, rest: Tiers, outer: set<string>)
    requires Keep(kept, outer) == Keep(tier, outer) && outer + Keys(kept) == outer + Keys(tier)
    requires CompactTiersFrom(rest, outer + Keys(tier)) == CompactTiersFrom(tail, outer + Keys(tier))
    ensures CompactTiersFrom((if kept == [] then [] else [kept]) + rest, outer)
      == CompactTiersFrom([tier] + tail, outer)
  {
    CompactCons(tier, tail, outer);
    if kept == [] {
      assert outer + Keys(tier) == outer;
      assert [] + rest == rest;
    } else {
      CompactCons(kept, rest, outer);
    }
  }

  lemma {:induction false} CompactTwice(tiers: Tiers, inner: set<string>, outer: set<string>)
    requires inner <= outer
    ensures CompactTiersFrom(CompactTiersFrom(tiers, inner), outer) == CompactTiersFrom(tiers, outer)
  {
    if tiers != [] {
      var tier, tail := tiers[0], tiers[1..];
      KeepTwice(tier, inner, outer);
      KeepKeys(tier, inner);
      CompactTwice(tail, inner + Keys(tier), outer + Keys(tier));
      TwiceStep(tier, tail, Keep(tier, inner), CompactTiersFrom(tail, inner + Keys(tier)), outer);
      assert tiers == [tier] + tail;
    }
  }

  lemma Regroup(a: Tiers, b: Tiers, c: Tiers)
    ensures a + (b + c) == (a + b) + c
  {}

  lemma ConcatStep(tier: seq<string>, tail: Tiers, b: Tiers, seen: set<string>, rest: Tiers)
    requires CompactTiersFrom(tail + b, seen + Keys(tier)) == CompactTiersFrom(tail, seen + Keys(tier)) + rest
    ensures CompactTiersFrom([tier] + (tail + b), seen) == CompactTiersFrom([tier] + tail, seen) + rest
  {
    var x := CompactTiersFrom(tail, seen + Keys(tier));
    assert CompactTiersFrom([tier] + tail, seen) == (if Keep(tier, seen) == [] then [] else [Keep(tier, seen)]) + x by {
      CompactCons(tier, tail, seen);
    }
    CompactCons(tier, tail + b, seen);
    Regroup(if Keep(tier, seen) == [] then [] else [Keep(tier, seen)], x, rest);
  }

  lemma FlatKeys(tier: seq<string>, tail: Tiers, seen: set<string>)
    ensures seen + Keys(Flat([tier] + tail)) == (seen + Keys(tier)) + Keys(Flat(tail))
  {
    assert ([tier] + tail)[1..] == tail;
    KeysConcat(tier, Flat(tail));
  }

  lemma {:induction false} CompactConcat(a: Tiers, b: Tiers, seen: set<string>, all: set<string>)
    requires all == seen + Keys(Flat(a))
    ensures CompactTiersFrom(a + b, seen) == CompactTiersFrom(a, seen) + CompactTiersFrom(b, all)
  {
    if a == [] {
      assert a + b == b && seen + Keys(Flat(a)) == seen;
    } else {
      var tier, tail := a[0], a[1..];
      assert a + b == [tier] + (tail + b) && a == [tier] + tail;
      FlatKeys(tier, tail, seen);
      CompactConcat(tail, b, seen + Keys(tier), all);
      ConcatStep(tier, tail, b, seen, CompactTiersFrom(b, all));
    }
  }

  lemma CompactParts(a: Tiers, b: Tiers)
    ensures Compact(Compact(a) + Compact(b)) == Compact(a + b)
  {
    var keys := Keys(Flat(a));
    CompactFlat(a, {});
    KeepKeys(Flat(a), {});
    CompactConcat(a, b, {}, keys);
    CompactConcat(Compact(a), Compact(b), {}, keys);
    CompactTwice(a, {}, {});
    CompactTwice(b, {}, keys);
  }

  /** A text is read in parts: a line of nothing but spaces ends a tier, and both sides are read on their own. */
  lemma BlankLineSplits(a: string, blank: string, b: string)
    requires forall n :: 0 <= n < |blank| ==> blank[n] != '\n' && (blank[n] == ' ' || '\t' <= blank[n] <= '\r')
    ensures Parse(a + "\n" + blank + "\n" + b) == Compact(Parse(a) + Parse(b))
  {
    var text := a + "\n" + blank + "\n" + b;
    BlankExactly(blank);
    SplitAt(a + "\n" + blank, b);
    SplitAt(a, blank);
    SplitWhole(blank);
    assert Split(text) == Split(a) + [blank] + Split(b);
    LinesConcat(Split(a), blank, Split(b), []);
    CompactParts(ParseLines(Split(a), []), ParseLines(Split(b), []));
  }

  lemma {:induction false} CompactOfTrimmed(values: seq<string>, x: string, rest: seq<string>, seen: set<string>)
    ensures Text.CompactFrom(values + [Trim(x)] + rest, seen) == Text.CompactFrom(values + [x] + rest, seen)
  {
    var a, b := values + [Trim(x)] + rest, values + [x] + rest;
    if values == [] {
      assert a[1..] == rest && b[1..] == rest;
      TrimIdempotent(x);
    } else {
      assert a[1..] == values[1..] + [Trim(x)] + rest && b[1..] == values[1..] + [x] + rest;
      CompactOfTrimmed(values[1..], x, rest, seen);
      CompactOfTrimmed(values[1..], x, rest, seen + {Trim(values[0])});
    }
  }

  lemma {:induction false} RunFrom(lines: seq<string>, current: seq<string>)
    requires forall n :: 0 <= n < |lines| ==> Trim(lines[n]) != ""
    ensures ParseLines(lines, current) == Close(current + lines)
  {
    if lines == [] {
      assert current + lines == current;
    } else {
      RunFrom(lines[1..], current + [Trim(lines[0])]);
      CompactOfTrimmed(current, lines[0], lines[1..], {});
      assert current + lines == current + [lines[0]] + lines[1..];
    }
  }

  /** And lines that all hold something are one tier. */
  lemma RunIsATier(text: string)
    requires forall n :: 0 <= n < |Split(text)| ==> Trim(Split(text)[n]) != ""
    ensures Parse(text) == Compact([Split(text)])
  {
    var lines := Split(text);
    RunFrom(lines, []);
    assert [] + lines == lines;
    ExactFirst(lines, {});
    OneTier(lines);
    OneTier(CompactStrings(lines));
  }

  lemma OneTier(tier: seq<string>)
    ensures Compact([tier]) == if Keep(tier, {}) == [] then [] else [Keep(tier, {})]
  {
    CompactCons(tier, [], {});
    assert [tier] + [] == [tier];
  }

  /** What is printed: the tiers of the normal form, a line for each URL, one empty line between two tiers. */
  lemma PrintedLines(tiers: Tiers)
    requires OneLine(Flat(Compact(tiers)))
    ensures Format(tiers) == "" <==> Compact(tiers) == []
    ensures Compact(tiers) != [] ==> Split(Format(tiers)) == Lines(Compact(tiers))
  {
    CompactIsNormal(tiers);
    if Compact(tiers) != [] {
      SplitPrinted(Compact(tiers));
      PrintedLinesHoldUrls(Compact(tiers));
    }
  }

  lemma PrintedLinesHoldUrls(tiers: Tiers)
    requires tiers != [] && NormalForm(tiers)
    ensures Lines(tiers) != [""]
  {
    assert Flat(tiers)[0] == tiers[0][0] && Lines(tiers)[0] == tiers[0][0];
  }

  // ---- round trip ----

  lemma {:induction false} ReadTier(tier: seq<string>, rest: seq<string>, current: seq<string>)
    requires forall n :: 0 <= n < |tier| ==> tier[n] != "" && Trim(tier[n]) == tier[n]
    ensures ParseLines(tier + rest, current) == ParseLines(rest, current + tier)
  {
    if tier == [] {
      assert tier + rest == rest && current + tier == current;
    } else {
      assert (tier + rest)[1..] == tier[1..] + rest && (tier + rest)[0] == tier[0];
      assert current + tier == current + [tier[0]] + tier[1..];
      ReadTier(tier[1..], rest, current + [tier[0]]);
    }
  }

  lemma {:induction false} CompactStringsFixes(urls: seq<string>, exact: set<string>, seen: set<string>)
    requires Fresh(urls, seen) && forall v :: v in exact ==> Lower(v) in seen
    ensures Text.CompactFrom(urls, exact) == urls
    decreases urls
  {
    if urls != [] {
      KeyOfTidy(urls[0]);
      var tail := urls[1..];
      assert forall i :: 0 <= i < |tail| ==> tail[i] == urls[i + 1];
      CompactStringsFixes(tail, exact + {urls[0]}, seen + {Lower(urls[0])});
    }
  }

  lemma {:induction false} ReadLines(tiers: Tiers, seen: set<string>)
    requires Fresh(Flat(tiers), seen) && forall n :: 0 <= n < |tiers| ==> tiers[n] != []
    ensures ParseLines(Lines(tiers), []) == tiers
  {
    if tiers != [] {
      var tier, tail := tiers[0], tiers[1..];
      FreshParts(tier, Flat(tail), seen);
      forall n | 0 <= n < |tier| ensures Trim(tier[n]) == tier[n] { KeyOfTidy(tier[n]); }
      CompactStringsFixes(tier, {}, seen);
      assert [] + tier == tier;
      if |tiers| == 1 {
        ReadTier(tier, [], []);
        assert tier + [] == tier && tiers == [tier];
      } else {
        assert forall n :: 0 <= n < |tail| ==> tail[n] == tiers[n + 1];
        ReadLines(tail, seen + Keys(tier));
        var rest := [""] + Lines(tail);
        ReadTier(tier, rest, []);
        assert tier + [""] + Lines(tail) == tier + rest && rest[1..] == Lines(tail);
        assert tiers == [tier] + tail;
      }
    }
  }

  lemma PrintedReadsBack(tiers: Tiers)
    requires OneLine(Flat(Compact(tiers)))
    ensures Parse(Format(tiers)) == Compact(tiers)
  {
    var compact := Compact(tiers);
    CompactIsNormal(tiers);
    if compact == [] {
      assert Split("") == [""];
    } else {
      SplitPrinted(compact);
      ReadLines(compact, {});
    }
  }

  // ---- and only then ----

  lemma {:induction false} ReadIsOneLine(lines: seq<string>, current: seq<string>)
    requires OneLine(lines) && OneLine(current)
    ensures OneLine(Flat(ParseLines(lines, current)))
  {
    CloseIsOneLine(current);
    if lines != [] {
      var tail := lines[1..];
      assert forall n :: 0 <= n < |tail| ==> tail[n] == lines[n + 1];
      TrimSpec(lines[0]);
      ReadIsOneLine(tail, []);
      ReadIsOneLine(tail, current + [Trim(lines[0])]);
      var closed, rest := Close(current), ParseLines(tail, []);
      FlatConcat(closed, rest);
    }
  }

  lemma {:induction false} FlatConcat(a: Tiers, b: Tiers)
    ensures Flat(a + b) == Flat(a) + Flat(b)
  {
    if a == [] {
      assert a + b == b;
    } else {
      assert (a + b)[1..] == a[1..] + b && (a + b)[0] == a[0];
      FlatConcat(a[1..], b);
    }
  }

  lemma CloseIsOneLine(current: seq<string>)
    requires OneLine(current)
    ensures OneLine(Flat(Close(current)))
  {
    var tier := CompactStrings(current);
    forall n | 0 <= n < |tier| ensures '\n' !in tier[n] {
      CompactContents(current, {}, tier[n]);
      var k :| 0 <= k < |current| && Trim(current[k]) == tier[n];
      TrimSpec(current[k]);
    }
    if current != [] { assert Flat([tier]) == tier + Flat([]) == tier; }
  }

  lemma CompactIsOneLine(tiers: Tiers)
    requires OneLine(Flat(tiers))
    ensures OneLine(Flat(Compact(tiers)))
  {
    var at := CompactKeepsFirsts(tiers);
    forall n | 0 <= n < |at| ensures '\n' !in Flat(Compact(tiers))[n] {
      TrimSpec(Flat(tiers)[at[n]]);
    }
  }

  /** A printed list reads back as its normal form exactly when no kept URL has a newline inside. */
  lemma RoundTripExactly(tiers: Tiers)
    ensures Parse(Format(tiers)) == Compact(tiers) <==> OneLine(Flat(Compact(tiers)))
  {
    var lines := Split(Format(tiers));
    LinesHaveNoNewline(Format(tiers));
    ReadIsOneLine(lines, []);
    CompactIsOneLine(ParseLines(lines, []));
    if OneLine(Flat(Compact(tiers))) { PrintedReadsBack(tiers); }
  }

  /** Whatever text was read, printing it and reading it again changes nothing more. */
  lemma ReadingIsStable(value: string)
    ensures Parse(Format(Parse(value))) == Parse(value)
  {
    LinesHaveNoNewline(value);
    ReadIsOneLine(Split(value), []);
    CompactIsOneLine(ParseLines(Split(value), []));
    CompactIsNormal(ParseLines(Split(value), []));
    PrintedReadsBack(Parse(value));
  }

  lemma BrokenUrl(url: string)
    requires url != "" && Trimmed(url) && '\n' in url
    ensures Compact([[url]]) == [[url]] && Parse(Format([[url]])) != [[url]]
  {
    assert Flat([[url]]) == [url] + Flat([]) == [url];
    assert Fresh([url], {});
    CompactIsNormal([[url]]);
    RoundTripExactly([[url]]);
    assert '\n' in Flat([[url]])[0];
  }

  /** A URL with a newline inside is printed as two lines and read back as two trackers. */
  lemma InnerNewlineIsLost()
    ensures Compact([["udp://a\nb"]]) == [["udp://a\nb"]] && Parse(Format([["udp://a\nb"]])) != [["udp://a\nb"]]
  {
    var url := "udp://a\nb";
    assert url[0] == 'u' && url[7] == '\n' && url[8] == 'b';
    BrokenUrl(url);
  }
}
