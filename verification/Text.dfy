/** ASCII readings of the Go string helpers the code leans on, and the few notions several modules share. */
module Text {

  datatype Option<+T> = None | Some(value: T)

  function Pow2(k: nat): (p: nat)
    ensures p >= 1
  {
    if k == 0 then 1 else 2 * Pow2(k - 1)
  }

  lemma Unsnoc<T>(rows: seq<T>)
    requires rows != []
    ensures rows == rows[..|rows| - 1] + [rows[|rows| - 1]]
  {}

  lemma OneMember<T>(s: set<T>)
    ensures |s| == 1 <==> exists k :: s == {k}
    ensures |s| == 1 ==> forall k :: k in s ==> s == {k}
  {
    forall k | |s| == 1 && k in s ensures s == {k} {
      assert |s - {k}| == 0;
      assert s - {k} == {};
    }
    if |s| == 1 {
      var k :| k in s;
      assert s == {k};
    }
  }

  predicate IsDigit(c: char) { '0' <= c <= '9' }

  /** No line feed in any of them. */
  ghost predicate OneLine(lines: seq<string>) {
    forall n :: 0 <= n < |lines| ==> '\n' !in lines[n]
  }

  predicate IsSpace(c: char) {
    c == ' ' || '\t' <= c <= '\r'
  }

  function TrimLeft(s: string): string {
    if s != "" && IsSpace(s[0]) then TrimLeft(s[1..]) else s
  }

  function TrimRight(s: string): string {
    if s != "" && IsSpace(s[|s| - 1]) then TrimRight(s[..|s| - 1]) else s
  }

  /** strings.TrimSpace */
  function Trim(s: string): string {
    TrimRight(TrimLeft(s))
  }

  lemma {:induction false} TrimLeftSpec(s: string)
    ensures |TrimLeft(s)| <= |s| && TrimLeft(s) == s[|s| - |TrimLeft(s)|..]
    ensures TrimLeft(s) != "" ==> !IsSpace(TrimLeft(s)[0])
  {
    if s != "" && IsSpace(s[0]) { TrimLeftSpec(s[1..]); }
  }

  lemma {:induction false} TrimRightSpec(s: string)
    ensures |TrimRight(s)| <= |s| && TrimRight(s) == s[..|TrimRight(s)|]
    ensures TrimRight(s) != "" ==> !IsSpace(TrimRight(s)[|TrimRight(s)| - 1])
  {
    if s != "" && IsSpace(s[|s| - 1]) { TrimRightSpec(s[..|s| - 1]); }
  }

  /** A trimmed string is a stretch of the original that neither starts nor ends with a space. */
  lemma TrimSpec(s: string)
    ensures Trimmed(Trim(s))
    ensures forall c :: c in Trim(s) ==> c in s
  {
    TrimLeftSpec(s);
    TrimRightSpec(TrimLeft(s));
  }

  predicate Trimmed(s: string) {
    s != "" ==> !IsSpace(s[0]) && !IsSpace(s[|s| - 1])
  }

  lemma TrimFixesTrimmed(s: string)
    requires Trimmed(s)
    ensures Trim(s) == s
  {}

  /** Trimming leaves nothing exactly of a text that is all spaces. */
  lemma BlankExactly(s: string)
    ensures Trim(s) == "" <==> forall n :: 0 <= n < |s| ==> s[n] == ' ' || '\t' <= s[n] <= '\r'
  {
    AllSpaceLeft(s);
    TrimLeftSpec(s);
    TrimRightSpec(TrimLeft(s));
    if TrimLeft(s) != "" { FirstKept(TrimLeft(s)); }
  }

  lemma {:induction false} AllSpaceLeft(s: string)
    ensures TrimLeft(s) == "" <==> forall n :: 0 <= n < |s| ==> IsSpace(s[n])
  {
    if s != "" && IsSpace(s[0]) {
      AllSpaceLeft(s[1..]);
      assert forall n :: 0 < n < |s| ==> s[n] == s[1..][n - 1];
    }
  }

  lemma {:induction false} FirstKept(s: string)
    requires s != "" && !IsSpace(s[0])
    ensures TrimRight(s) != ""
  {
    if IsSpace(s[|s| - 1]) { FirstKept(s[..|s| - 1]); }
  }

  lemma TrimIdempotent(s: string)
    ensures Trim(Trim(s)) == Trim(s)
  {
    TrimSpec(s);
    TrimFixesTrimmed(Trim(s));
  }

  function LowerChar(c: char): char {
    if 'A' <= c <= 'Z' then c - 'A' + 'a' else c
  }

  function UpperChar(c: char): char {
    if 'a' <= c <= 'z' then c - 'a' + 'A' else c
  }

  function Lower(s: string): (r: string)
    ensures |r| == |s|
    ensures forall k :: 0 <= k < |s| ==> r[k] == LowerChar(s[k])
  {
    seq(|s|, i requires 0 <= i < |s| => LowerChar(s[i]))
  }

  function Upper(s: string): (r: string)
    ensures |r| == |s|
    ensures forall k :: 0 <= k < |s| ==> r[k] == UpperChar(s[k])
  {
    seq(|s|, i requires 0 <= i < |s| => UpperChar(s[i]))
  }

  lemma LowerIdempotent(s: string)
    ensures Lower(Lower(s)) == Lower(s)
  {}

  predicate HasPrefix(s: string, prefix: string) {
    |prefix| <= |s| && s[..|prefix|] == prefix
  }

  lemma PrefixExactly(s: string, prefix: string)
    ensures HasPrefix(s, prefix) <==> exists rest :: s == prefix + rest
  {
    if HasPrefix(s, prefix) { assert s == prefix + s[|prefix|..]; }
  }

  /** compactStrings: trimmed, non-empty, first occurrence of each. */
  function CompactFrom(values: seq<string>, seen: set<string>): seq<string>
  {
    if values == [] then []
    else
      var v := Trim(values[0]);
      if v == "" || v in seen then CompactFrom(values[1..], seen)
      else [v] + CompactFrom(values[1..], seen + {v})
  }

  function CompactStrings(values: seq<string>): seq<string> {
    CompactFrom(values, {})
  }

  /** What compactStrings keeps, as a set: every trimmed non-empty value. */
  lemma {:induction false} CompactContents(values: seq<string>, seen: set<string>, x: string)
    ensures x in CompactFrom(values, seen) <==>
        x != "" && x !in seen && exists k :: 0 <= k < |values| && Trim(values[k]) == x
  {
    if values != [] {
      var v := Trim(values[0]);
      var tail := values[1..];
      assert forall k :: 0 <= k < |tail| ==> tail[k] == values[k + 1];
      if v == "" || v in seen {
        CompactContents(tail, seen, x);
        if exists k :: 0 <= k < |values| && Trim(values[k]) == x {
          var k :| 0 <= k < |values| && Trim(values[k]) == x;
          if k > 0 { assert Trim(tail[k - 1]) == x; }
        }
      } else {
        CompactContents(tail, seen + {v}, x);
        if exists k :: 0 <= k < |values| && Trim(values[k]) == x {
          var k :| 0 <= k < |values| && Trim(values[k]) == x;
          if k > 0 { assert Trim(tail[k - 1]) == x; }
        }
        if x == v { assert Trim(values[0]) == x; }
      }
    }
  }

  /** Where a value first stands, trimmed; the length if it does not. */
  function FirstOf(values: seq<string>, x: string): nat {
    if values == [] || Trim(values[0]) == x then 0 else 1 + FirstOf(values[1..], x)
  }

  /** No value is kept twice, and the kept ones stand in the order of their first occurrences. */
  lemma {:induction false} CompactOrder(values: seq<string>, seen: set<string>, i: nat, j: nat)
    requires i < j < |CompactFrom(values, seen)|
    ensures var kept := CompactFrom(values, seen);
      kept[i] != kept[j] && FirstOf(values, kept[i]) < FirstOf(values, kept[j])
  {
    var v, kept := Trim(values[0]), CompactFrom(values, seen);
    CompactContents(values, seen, kept[i]);
    CompactContents(values, seen, kept[j]);
    if v == "" || v in seen {
      CompactOrder(values[1..], seen, i, j);
    } else {
      var rest := CompactFrom(values[1..], seen + {v});
      assert kept[j] == rest[j - 1];
      CompactContents(values[1..], seen + {v}, kept[j]);
      if i > 0 {
        assert kept[i] == rest[i - 1];
        CompactContents(values[1..], seen + {v}, kept[i]);
        CompactOrder(values[1..], seen + {v}, i - 1, j - 1);
      }
    }
  }
}
