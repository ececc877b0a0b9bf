/**
  ISBN canonicalization: ISBN-10 and ISBN-13 as the ranker accepts them, the check digits
  of ISO 2108, and which slips the two checks catch: one wrong symbol in either form, a
  swap of two symbols in the shorter one, and most swaps of neighbours in the longer.
 */
module Isbn {
  import opened Text

  /** Python's \s on ASCII: the usual six and the four separators. */
  predicate Blank(c: char) {
    c == ' ' || '\t' <= c <= '\r' || 28 as char <= c <= 31 as char
  }

  function Clean(s: string): string {
    if s == "" then ""
    else if Blank(s[0]) || s[0] == '-' then Clean(s[1..])
    else [UpperChar(s[0])] + Clean(s[1..])
  }

  predicate Digits(s: string) { forall k :: 0 <= k < |s| ==> IsDigit(s[k]) }

  /** A digit's value; X stands for ten. */
  function Val(c: char): int {
    if c == 'X' then 10 else (c as int) - ('0' as int)
  }

  /** Weights 10, 9, 8, ... from position i on. */
  function Sum10(s: string, i: nat): int
    decreases |s| - i
  {
    if i >= |s| then 0 else (10 - i) * Val(s[i]) + Sum10(s, i + 1)
  }

  function Weight13(i: nat): int { if i % 2 == 0 then 1 else 3 }

  /** Weights 1, 3, 1, 3, ... from position i on. */
  function Sum13(s: string, i: nat): int
    decreases |s| - i
  {
    if i >= |s| then 0 else Weight13(i) * Val(s[i]) + Sum13(s, i + 1)
  }

  predicate Shaped10(c: string) {
    |c| == 10 && Digits(c[..9]) && (IsDigit(c[9]) || c[9] == 'X')
  }

  /** ISO 2108, thirteen digits with a bookland prefix and a right check digit. */
  predicate Good13(t: string) {
    |t| == 13 && Digits(t) && (t[..3] == "978" || t[..3] == "979") && Sum13(t, 0) % 10 == 0
  }

  predicate Good10(c: string) {
    Shaped10(c) && Sum10(c, 0) % 11 == 0
  }

  function DigitChar(d: nat): char
    requires d < 10
  {
    (d + ('0' as int)) as char
  }

  function Convert(c: string): string
    requires |c| == 10
  {
    var body := "978" + c[..9];
    body + [DigitChar((-Sum13(body, 0)) % 10)]
  }

  function Isbn13(s: string): Option<string> {
    var c := Clean(s);
    if Shaped10(c) && Sum10(c, 0) % 11 != 0 then None
    else
      var t := if Shaped10(c) then Convert(c) else c;
      if |t| != 13 || !Digits(t) || !(t[..3] == "978" || t[..3] == "979") then None
      else if Sum13(t, 0) % 10 == 0 then Some(t) else None
  }

  /** The weights of the two check sums. */
  lemma SumsWrittenOut(s: string)
    ensures |s| == 10 ==>
      Sum10(s, 0) == 10 * Val(s[0]) + 9 * Val(s[1]) + 8 * Val(s[2]) + 7 * Val(s[3]) + 6 * Val(s[4])
                     + 5 * Val(s[5]) + 4 * Val(s[6]) + 3 * Val(s[7]) + 2 * Val(s[8]) + Val(s[9])
    ensures |s| == 13 ==>
      Sum13(s, 0) == Val(s[0]) + Val(s[2]) + Val(s[4]) + Val(s[6]) + Val(s[8]) + Val(s[10]) + Val(s[12])
                     + 3 * (Val(s[1]) + Val(s[3]) + Val(s[5]) + Val(s[7]) + Val(s[9]) + Val(s[11]))
  {
    if |s| == 10 {
      assert Sum10(s, 9) == Val(s[9]);
      assert Sum10(s, 8) == 2 * Val(s[8]) + Val(s[9]);
      assert Sum10(s, 6) == 4 * Val(s[6]) + 3 * Val(s[7]) + Sum10(s, 8);
      assert Sum10(s, 4) == 6 * Val(s[4]) + 5 * Val(s[5]) + Sum10(s, 6);
      assert Sum10(s, 2) == 8 * Val(s[2]) + 7 * Val(s[3]) + Sum10(s, 4);
    }
    if |s| == 13 {
      assert Sum13(s, 12) == Val(s[12]);
      assert Sum13(s, 11) == 3 * Val(s[11]) + Val(s[12]);
      assert Sum13(s, 9) == 3 * Val(s[9]) + Val(s[10]) + Sum13(s, 11);
      assert Sum13(s, 7) == 3 * Val(s[7]) + Val(s[8]) + Sum13(s, 9);
      assert Sum13(s, 5) == 3 * Val(s[5]) + Val(s[6]) + Sum13(s, 7);
      assert Sum13(s, 3) == 3 * Val(s[3]) + Val(s[4]) + Sum13(s, 5);
      assert Sum13(s, 1) == 3 * Val(s[1]) + Val(s[2]) + Sum13(s, 3);
    }
  }

  /** Cleaning works symbol by symbol: spaces and dashes go, letters are capitals. */
  lemma {:induction false} CleanEach(a: string, c: char, b: string)
    ensures Clean(a + [c] + b)
      == Clean(a) + (if c == '-' || c == ' ' || '\t' <= c <= '\r' || 28 as char <= c <= 31 as char then []
                     else if 'a' <= c <= 'z' then [c - 'a' + 'A'] else [c]) + Clean(b)
  {
    var all := a + [c] + b;
    if a == [] {
      assert all[1..] == b;
    } else {
      assert all[1..] == a[1..] + [c] + b && all[0] == a[0];
      CleanEach(a[1..], c, b);
    }
  }

  // ---- what it accepts ----

  lemma {:induction false} Sum13Append(a: string, c: char, i: nat)
    requires i <= |a|
    ensures Sum13(a + [c], i) == Sum13(a, i) + Weight13(|a|) * Val(c)
    decreases |a| - i
  {
    if i < |a| {
      Sum13Append(a, c, i + 1);
      assert (a + [c])[i] == a[i];
    } else {
      assert (a + [c])[i] == c;
    }
  }

  lemma ConvertIsGood(c: string)
    requires Shaped10(c)
    ensures Good13(Convert(c))
  {
    var body := "978" + c[..9];
    var d := (-Sum13(body, 0)) % 10;
    Sum13Append(body, DigitChar(d), 0);
    assert Weight13(12) == 1 && Val(DigitChar(d)) == d;
    assert (Sum13(body, 0) + d) % 10 == 0;
    assert forall k :: 0 <= k < 3 ==> IsDigit("978"[k]);
    assert forall k :: 3 <= k < 12 ==> body[k] == c[..9][k - 3];
    assert Convert(c)[..3] == "978";
  }

  /** A text is accepted exactly when what is left of it is a valid ISBN-10 or ISBN-13. */
  lemma AcceptsExactly(s: string)
    ensures Isbn13(s).Some? <==> Good10(Clean(s)) || Good13(Clean(s))
    ensures Good10(Clean(s)) ==> Isbn13(s) == Some(Convert(Clean(s)))
    ensures Good13(Clean(s)) ==> Isbn13(s) == Some(Clean(s))
  {
    if Shaped10(Clean(s)) { ConvertIsGood(Clean(s)); }
  }

  lemma ShapesWrittenOut(c: string)
    ensures Good10(c) <==>
      && |c| == 10 && (forall k :: 0 <= k < 9 ==> '0' <= c[k] <= '9') && ('0' <= c[9] <= '9' || c[9] == 'X')
      && Sum10(c, 0) % 11 == 0
    ensures Good13(c) <==>
      && |c| == 13 && (forall k :: 0 <= k < 13 ==> '0' <= c[k] <= '9')
      && c[0] == '9' && c[1] == '7' && (c[2] == '8' || c[2] == '9') && Sum13(c, 0) % 10 == 0
  {
    if |c| == 10 { assert forall k :: 0 <= k < 9 ==> c[..9][k] == c[k]; }
    if |c| == 13 {
      assert c[..3] == [c[0], c[1], c[2]];
      assert "978" == ['9', '7', '8'] && "979" == ['9', '7', '9'];
    }
  }

  /**
    In symbols: ten of them, digits but for a closing X, whose sum weighted ten down to one is a
    multiple of eleven; or thirteen digits from 978 or 979 on, whose sum weighted one and three in
    turn is a multiple of ten. The first nine of the ten come back behind 978.
   */
  lemma AcceptedSymbols(s: string)
    ensures var c := Clean(s);
      Isbn13(s).Some? <==>
      || (|c| == 10 && (forall k :: 0 <= k < 9 ==> '0' <= c[k] <= '9') && ('0' <= c[9] <= '9' || c[9] == 'X')
          && Sum10(c, 0) % 11 == 0)
      || (|c| == 13 && (forall k :: 0 <= k < 13 ==> '0' <= c[k] <= '9')
          && c[0] == '9' && c[1] == '7' && (c[2] == '8' || c[2] == '9') && Sum13(c, 0) % 10 == 0)
    ensures Isbn13(s).Some? && |Clean(s)| == 10 ==>
      && |Isbn13(s).value| == 13 && Isbn13(s).value[..3] == "978" && Isbn13(s).value[3..12] == Clean(s)[..9]
    ensures Isbn13(s).Some? && |Clean(s)| == 13 ==> Isbn13(s).value == Clean(s)
  {
    AcceptsExactly(s);
    ShapesWrittenOut(Clean(s));
  }

  lemma {:induction false} CleanDigits(s: string)
    requires Digits(s)
    ensures Clean(s) == s
  {
    if s != "" {
      assert forall k :: 0 <= k < |s[1..]| ==> s[1..][k] == s[k + 1];
      CleanDigits(s[1..]);
    }
  }

  /** Every result carries a right check digit and is its own canonical form. */
  lemma ResultsAreFixed(s: string)
    requires Isbn13(s).Some?
    ensures Good13(Isbn13(s).value) && Isbn13(Isbn13(s).value) == Isbn13(s)
  {
    AcceptsExactly(s);
    if Shaped10(Clean(s)) { ConvertIsGood(Clean(s)); }
    CleanDigits(Isbn13(s).value);
    AcceptsExactly(Isbn13(s).value);
  }

  // ---- no two ISBN-10s share a result ----

  lemma {:induction false} Sum10Change(a: string, b: string, k: nat, i: nat)
    requires |a| == |b| && k < |a| && i <= |a| && forall j :: 0 <= j < |a| && j != k ==> a[j] == b[j]
    ensures Sum10(b, i) - Sum10(a, i) == if i <= k then (10 - k) * (Val(b[k]) - Val(a[k])) else 0
    decreases |a| - i
  {
    if i < |a| { Sum10Change(a, b, k, i + 1); }
  }

  lemma {:induction false} Sum13Change(a: string, b: string, k: nat, i: nat)
    requires |a| == |b| && k < |a| && i <= |a| && forall j :: 0 <= j < |a| && j != k ==> a[j] == b[j]
    ensures Sum13(b, i) - Sum13(a, i) == if i <= k then Weight13(k) * (Val(b[k]) - Val(a[k])) else 0
    decreases |a| - i
  {
    if i < |a| { Sum13Change(a, b, k, i + 1); }
  }

  /** Eleven is prime. */
  lemma NotByEleven(w: int, d: int)
    requires 1 <= w <= 10 && -10 <= d <= 10 && d != 0
    ensures (w * d) % 11 != 0
  {
    if w == 1 {} else if w == 2 {} else if w == 3 {} else if w == 4 {} else if w == 5 {}
    else if w == 6 {} else if w == 7 {} else if w == 8 {} else if w == 9 {} else {}
  }

  lemma NotBothEleven(x: int, y: int, diff: int)
    requires y - x == diff && x % 11 == 0 && diff % 11 != 0
    ensures y % 11 != 0
  {}

  lemma SingleErrorBreaks10(a: string, b: string, k: nat)
    requires Good10(a) && |b| == 10 && k < 10 && a[k] != b[k] && forall j :: 0 <= j < 10 && j != k ==> a[j] == b[j]
    ensures !Good10(b)
  {
    if Shaped10(b) {
      Sum10Change(a, b, k, 0);
      var d := Val(b[k]) - Val(a[k]);
      NotByEleven(10 - k, d);
      NotBothEleven(Sum10(a, 0), Sum10(b, 0), (10 - k) * d);
    }
  }

  /** Distinct valid ISBN-10s are sent to distinct ISBN-13s. */
  lemma InjectiveOnIsbn10(s: string, t: string)
    requires Good10(Clean(s)) && Good10(Clean(t)) && Isbn13(s) == Isbn13(t)
    ensures Clean(s) == Clean(t)
  {
    var a, b := Clean(s), Clean(t);
    AcceptsExactly(s);
    AcceptsExactly(t);
    forall j | 0 <= j < 9 ensures a[j] == b[j] {
      assert Convert(a)[3 + j] == a[..9][j] && Convert(b)[3 + j] == b[..9][j];
    }
    if a[9] != b[9] {
      SingleErrorBreaks10(a, b, 9);
    }
  }

  // ---- errors that are caught ----

  /** The two texts name symbols that differ at this one position. */
  ghost predicate DifferOnlyAt(a: string, b: string, k: nat) {
    |a| == |b| && k < |a| && a[k] != b[k] && forall j :: 0 <= j < |a| && j != k ==> a[j] == b[j]
  }

  lemma Modulo10(x: int, y: int, w: int, d: int)
    requires (w == 1 || w == 3) && -9 <= d <= 9 && d != 0 && y - x == w * d && x % 10 == 0
    ensures y % 10 != 0
  {
    if w == 1 {} else {}
  }

  lemma SingleErrorBreaks13(a: string, b: string, k: nat)
    requires Good13(a) && DifferOnlyAt(a, b, k)
    ensures !Good13(b)
  {
    if Digits(b) {
      Sum13Change(a, b, k, 0);
      assert IsDigit(a[k]) && IsDigit(b[k]);
      Modulo10(Sum13(a, 0), Sum13(b, 0), Weight13(k), Val(b[k]) - Val(a[k]));
    }
  }

  /** One wrong symbol anywhere in an accepted ISBN, of either form, is always rejected. */
  lemma SingleErrorIsRejected(s: string, t: string, k: nat)
    requires Isbn13(s).Some? && DifferOnlyAt(Clean(s), Clean(t), k)
    ensures Isbn13(t).None?
  {
    AcceptsExactly(s);
    AcceptsExactly(t);
    if Good10(Clean(s)) {
      SingleErrorBreaks10(Clean(s), Clean(t), k);
    } else {
      SingleErrorBreaks13(Clean(s), Clean(t), k);
    }
  }

  lemma SwapSum(a: string, i: nat, j: nat)
    requires i < j < |a|
    ensures Sum10(a[i := a[j]][j := a[i]], 0) - Sum10(a, 0) == (j - i) * (Val(a[j]) - Val(a[i]))
  {
    var m, b := a[i := a[j]], a[i := a[j]][j := a[i]];
    Sum10Change(a, m, i, 0);
    Sum10Change(m, b, j, 0);
    var x, y := Val(a[i]), Val(a[j]);
    calc {
      (10 - i) * (y - x) + (10 - j) * (x - y);
      (10 - i) * (y - x) - (10 - j) * (y - x);
      (j - i) * (y - x);
    }
  }

  /** Two unequal symbols of an accepted ISBN-10 changing places is always rejected. */
  lemma SwapIsRejected(s: string, t: string, i: nat, j: nat)
    requires Good10(Clean(s)) && i < j < 10 && Clean(s)[i] != Clean(s)[j]
    requires Clean(t) == Clean(s)[i := Clean(s)[j]][j := Clean(s)[i]]
    ensures Isbn13(t).None?
  {
    var a, b := Clean(s), Clean(t);
    AcceptsExactly(t);
    if Shaped10(b) {
      SwapSum(a, i, j);
      NotByEleven(j - i, Val(a[j]) - Val(a[i]));
      NotBothEleven(Sum10(a, 0), Sum10(b, 0), (j - i) * (Val(a[j]) - Val(a[i])));
    }
  }

  lemma ByFive(x: int, y: int, d: int)
    requires x % 10 == 0 && (y - x == 2 * d || y - x == -2 * d)
    ensures y % 10 == 0 <==> d % 5 == 0
  {}

  lemma NeighbourSum(a: string, i: nat)
    requires i + 1 < |a|
    ensures var diff := Sum13(a[i := a[i + 1]][i + 1 := a[i]], 0) - Sum13(a, 0);
      diff == if i % 2 == 0 then 2 * (Val(a[i]) - Val(a[i + 1])) else -2 * (Val(a[i]) - Val(a[i + 1]))
  {
    var m, b := a[i := a[i + 1]], a[i := a[i + 1]][i + 1 := a[i]];
    Sum13Change(a, m, i, 0);
    Sum13Change(m, b, i + 1, 0);
    if i % 2 == 0 {
      assert Weight13(i) == 1 && Weight13(i + 1) == 3;
    } else {
      assert Weight13(i) == 3 && Weight13(i + 1) == 1;
    }
  }

  lemma PrefixDigits(t: string)
    requires |t| == 13 && (t[..3] == "978" || t[..3] == "979")
    ensures t[0] == '9' && t[1] == '7' && (t[2] == '8' || t[2] == '9')
  {
    assert t[0] == t[..3][0] && t[1] == t[..3][1] && t[2] == t[..3][2];
  }

  /**
    Unlike neighbours, the left one in the prefix: the swap leaves no prefix, or an eight for
    a nine and with it a wrong sum.
   */
  lemma PrefixSwapBreaks(a: string, i: nat)
    requires Good13(a) && i < 3 && a[i] != a[i + 1]
    ensures !Good13(a[i := a[i + 1]][i + 1 := a[i]])
  {
    var b := a[i := a[i + 1]][i + 1 := a[i]];
    PrefixDigits(a);
    if b[..3] == "978" || b[..3] == "979" {
      PrefixDigits(b);
      NeighbourSum(a, i);
      ByFive(Sum13(a, 0), Sum13(b, 0), Val(a[i]) - Val(a[i + 1]));
    }
  }

  /**
    The thirteen-digit check is weaker: unlike neighbours may change places unnoticed exactly
    when both stand behind the prefix and differ by five.
   */
  lemma NeighbourSwapExactly(a: string, i: nat)
    requires Good13(a) && i < 12
    ensures Good13(a[i := a[i + 1]][i + 1 := a[i]])
      <==> a[i] == a[i + 1] || (3 <= i && (Val(a[i]) - Val(a[i + 1])) % 5 == 0)
  {
    var b := a[i := a[i + 1]][i + 1 := a[i]];
    if a[i] == a[i + 1] {
      assert b == a;
    } else if i < 3 {
      PrefixSwapBreaks(a, i);
    } else {
      NeighbourSum(a, i);
      ByFive(Sum13(a, 0), Sum13(b, 0), Val(a[i]) - Val(a[i + 1]));
      assert b[..3] == a[..3];
      assert Digits(b);
    }
  }

  lemma Sum13Unrolled(t: string)
    requires |t| == 13
    ensures Sum13(t, 0) == Val(t[0]) + 3 * Val(t[1]) + Val(t[2]) + 3 * Val(t[3]) + Val(t[4]) + 3 * Val(t[5]) + Val(t[6])
      + 3 * Val(t[7]) + Val(t[8]) + 3 * Val(t[9]) + Val(t[10]) + 3 * Val(t[11]) + Val(t[12])
  {
    assert Sum13(t, 12) == Val(t[12]);
    assert Sum13(t, 10) == Val(t[10]) + 3 * Val(t[11]) + Sum13(t, 12);
    assert Sum13(t, 8) == Val(t[8]) + 3 * Val(t[9]) + Sum13(t, 10);
    assert Sum13(t, 6) == Val(t[6]) + 3 * Val(t[7]) + Sum13(t, 8);
    assert Sum13(t, 4) == Val(t[4]) + 3 * Val(t[5]) + Sum13(t, 6);
    assert Sum13(t, 2) == Val(t[2]) + 3 * Val(t[3]) + Sum13(t, 4);
  }

  lemma GoodIsAccepted(t: string)
    requires Good13(t)
    ensures Isbn13(t) == Some(t)
  {
    CleanDigits(t);
    AcceptsExactly(t);
  }

  lemma GoodBook(t: string, tens: int)
    requires |t| == 13 && t[0] == '9' && t[1] == '7' && t[2] == '8' && forall k :: 3 <= k < 10 ==> t[k] == '0'
    requires IsDigit(t[10]) && IsDigit(t[11]) && IsDigit(t[12])
    requires 38 + Val(t[10]) + 3 * Val(t[11]) + Val(t[12]) == 10 * tens
    ensures Isbn13(t) == Some(t)
  {
    Sum13Unrolled(t);
    assert t[..3] == "978";
    GoodIsAccepted(t);
  }

  /** A slip the check lets through: the five and the zero before it have changed places. */
  lemma UnnoticedSwap() returns (right: string, wrong: string)
    ensures right == "9780000000057" && wrong == "9780000000507"
    ensures Isbn13(right) == Some(right) && Isbn13(wrong) == Some(wrong)
  {
    right, wrong := "9780000000057", "9780000000507";
    GoodBook(right, 6);
    GoodBook(wrong, 5);
  }
}
