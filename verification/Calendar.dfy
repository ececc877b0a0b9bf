/**
  The iCalendar feed: one all-day event per book with a release date, written line by
  line. This module holds the pieces: escaping a text as section 3.3.11 of RFC 5545 has
  it and undoing that, and the dates, whose successor over months, years and leap days
  is the event's end.
 */
module Calendar {

  datatype Item = Item(id: string, title: string, author: string, format: string, releaseDate: string)

  // ---- text values ----

  /** Backslash, semicolon, comma and line breaks, each position decided by the first rule that fits. */
  function Escape(s: string): string {
    if s == "" then ""
    else if s[0] == '\\' then "\\\\" + Escape(s[1..])
    else if s[0] == ';' then "\\;" + Escape(s[1..])
    else if s[0] == ',' then "\\," + Escape(s[1..])
    else if s[0] == '\r' && |s| > 1 && s[1] == '\n' then "\\n" + Escape(s[2..])
    else if s[0] == '\n' then "\\n" + Escape(s[1..])
    else [s[0]] + Escape(s[1..])
  }

  /** Reading a TEXT value, section 3.3.11 of RFC 5545. */
  function Unescape(s: string): string {
    if |s| >= 2 && s[0] == '\\' && s[1] in {'\\', ';', ',', 'n', 'N'} then
      [if s[1] == 'n' || s[1] == 'N' then '\n' else s[1]] + Unescape(s[2..])
    else if s == "" then ""
    else [s[0]] + Unescape(s[1..])
  }

  /** Every CR LF pair as a single LF; a lone CR stays. */
  function Normalize(s: string): string {
    if s == "" then ""
    else if s[0] == '\r' && |s| > 1 && s[1] == '\n' then ['\n'] + Normalize(s[2..])
    else [s[0]] + Normalize(s[1..])
  }

  lemma UnescapePair(c: char, rest: string)
    requires c in {'\\', ';', ',', 'n'}
    ensures Unescape(['\\', c] + rest) == [if c == 'n' then '\n' else c] + Unescape(rest)
  {
    assert (['\\', c] + rest)[2..] == rest;
  }

  lemma UnescapePlain(c: char, rest: string)
    requires c != '\\'
    ensures Unescape([c] + rest) == [c] + Unescape(rest)
  {
    assert ([c] + rest)[1..] == rest;
  }

  /** Unescaping undoes escaping, up to the spelling of line breaks, for every text. */
  lemma {:induction false} EscapeRoundTrip(s: string)
    ensures Unescape(Escape(s)) == Normalize(s)
  {
    if s == "" {
    } else if s[0] == '\r' && |s| > 1 && s[1] == '\n' {
      EscapeRoundTrip(s[2..]);
      UnescapePair('n', Escape(s[2..]));
    } else {
      EscapeRoundTrip(s[1..]);
      var rest := Escape(s[1..]);
      if s[0] in {'\\', ';', ','} {
        UnescapePair(s[0], rest);
      } else if s[0] == '\n' {
        UnescapePair('n', rest);
      } else {
        UnescapePlain(s[0], rest);
      }
    }
  }

  /** Escaping one character at a time. */
  function EscapeEach(s: string): string {
    if s == "" then ""
    else
      var first := if s[0] == '\n' then "\\n" else if s[0] in {'\\', ';', ','} then ['\\', s[0]] else [s[0]];
      first + EscapeEach(s[1..])
  }

  lemma {:induction false} EscapeIsEach(s: string)
    ensures Escape(s) == EscapeEach(Normalize(s))
  {
    if s != "" {
      assert Normalize(s) == [Normalize(s)[0]] + Normalize(s)[1..];
      if s[0] == '\r' && |s| > 1 && s[1] == '\n' {
        EscapeIsEach(s[2..]);
        assert Normalize(s)[1..] == Normalize(s[2..]);
      } else {
        EscapeIsEach(s[1..]);
        assert Normalize(s)[1..] == Normalize(s[1..]);
      }
    }
  }

  /** Two texts print alike exactly when they differ only in CR LF against LF. */
  lemma EscapeExactly(a: string, b: string)
    ensures Escape(a) == Escape(b) <==> Normalize(a) == Normalize(b)
  {
    EscapeIsEach(a);
    EscapeIsEach(b);
    EscapeRoundTrip(a);
    EscapeRoundTrip(b);
  }

  /** Every line feed is escaped, so no emitted line can end early. */
  lemma {:induction false} EscapedHasNoLineFeed(s: string)
    ensures '\n' !in Escape(s)
  {
    if s != "" {
      EscapedHasNoLineFeed(s[1..]);
      if |s| > 1 { EscapedHasNoLineFeed(s[2..]); }
    }
  }

  /** Every comma and semicolon stands behind a backslash. */
  lemma {:induction false} EscapedSeparators(s: string, k: nat)
    requires k < |Escape(s)| && (Escape(s)[k] == ',' || Escape(s)[k] == ';')
    ensures k > 0 && Escape(s)[k - 1] == '\\'
  {
    EscapeIsEach(s);
    SeparatorsEach(Normalize(s), k);
  }

  lemma {:induction false} SeparatorsEach(s: string, k: nat)
    requires k < |EscapeEach(s)| && (EscapeEach(s)[k] == ',' || EscapeEach(s)[k] == ';')
    ensures k > 0 && EscapeEach(s)[k - 1] == '\\'
  {
    var first := |EscapeEach(s)| - |EscapeEach(s[1..])|;
    assert forall n :: first <= n < |EscapeEach(s)| ==> EscapeEach(s)[n] == EscapeEach(s[1..])[n - first];
    if k >= first { SeparatorsEach(s[1..], k - first); }
  }

  // ---- dates ----

  datatype Date = Date(year: nat, month: nat, day: nat)

  predicate Leap(y: nat) { y % 4 == 0 && (y % 100 != 0 || y % 400 == 0) }

  function DaysIn(y: nat, m: nat): nat {
    if m == 2 then (if Leap(y) then 29 else 28) else if m == 4 || m == 6 || m == 9 || m == 11 then 30 else 31
  }

  predicate ValidDate(d: Date) {
    1 <= d.month <= 12 && 1 <= d.day <= DaysIn(d.year, d.month)
  }

  /** date.AddDate(0, 0, 1), normalized. */
  function NextDay(d: Date): Date {
    if d.day < DaysIn(d.year, d.month) then d.(day := d.day + 1)
    else if d.month < 12 then Date(d.year, d.month + 1, 1)
    else Date(d.year + 1, 1, 1)
  }

  function LeapsBefore(y: nat): nat { (y + 3) / 4 - (y + 99) / 100 + (y + 399) / 400 }

  function DaysBefore(y: nat, m: nat): nat
  {
    if m <= 1 then 0 else DaysBefore(y, m - 1) + DaysIn(y, m - 1)
  }

  /** Days since the start of year 0 of the proleptic Gregorian calendar. */
  function DayNumber(d: Date): int {
    365 * d.year + LeapsBefore(d.year) + DaysBefore(d.year, d.month) + d.day
  }

  lemma YearLength(y: nat)
    ensures DaysBefore(y, 12) + 31 == 365 + if Leap(y) then 1 else 0
  {
    assert DaysBefore(y, 2) == 31;
    assert DaysBefore(y, 3) == 31 + DaysIn(y, 2);
    assert DaysBefore(y, 4) == DaysBefore(y, 3) + 31;
    assert DaysBefore(y, 5) == DaysBefore(y, 4) + 30;
    assert DaysBefore(y, 6) == DaysBefore(y, 5) + 31;
    assert DaysBefore(y, 7) == DaysBefore(y, 6) + 30;
    assert DaysBefore(y, 8) == DaysBefore(y, 7) + 31;
    assert DaysBefore(y, 9) == DaysBefore(y, 8) + 31;
    assert DaysBefore(y, 10) == DaysBefore(y, 9) + 30;
    assert DaysBefore(y, 11) == DaysBefore(y, 10) + 31;
    assert DaysBefore(y, 12) == DaysBefore(y, 11) + 30;
  }

  lemma NextMultipleOf4(y: nat)
    ensures (y + 4) / 4 == (y + 3) / 4 + if y % 4 == 0 then 1 else 0
  {}

  lemma NextMultipleOf100(y: nat)
    ensures (y + 100) / 100 == (y + 99) / 100 + if y % 100 == 0 then 1 else 0
  {}

  lemma NextMultipleOf400(y: nat)
    ensures (y + 400) / 400 == (y + 399) / 400 + if y % 400 == 0 then 1 else 0
  {}

  lemma FourTimes(k: nat)
    ensures (4 * k) % 4 == 0
  {}

  lemma HundredTimes(k: nat)
    ensures (100 * k) % 100 == 0
  {}

  lemma MultiplesNest(y: nat)
    ensures (y % 400 == 0 ==> y % 100 == 0) && (y % 100 == 0 ==> y % 4 == 0)
  {
    if y % 400 == 0 {
      var k := 4 * (y / 400);
      assert y == 100 * k;
      HundredTimes(k);
    }
    if y % 100 == 0 {
      var k := 25 * (y / 100);
      assert y == 4 * k;
      FourTimes(k);
    }
  }

  lemma LeapDays(y: nat)
    ensures LeapsBefore(y + 1) == LeapsBefore(y) + if Leap(y) then 1 else 0
  {
    NextMultipleOf4(y);
    NextMultipleOf100(y);
    NextMultipleOf400(y);
    MultiplesNest(y);
  }

  /** The months of the Gregorian calendar. */
  lemma MonthLengths(y: nat, m: nat)
    requires 1 <= m <= 12
    ensures m in {1, 3, 5, 7, 8, 10, 12} ==> DaysIn(y, m) == 31
    ensures m in {4, 6, 9, 11} ==> DaysIn(y, m) == 30
    ensures m == 2 ==> DaysIn(y, m) == if (y % 4 == 0 && y % 100 != 0) || y % 400 == 0 then 29 else 28
  {
    MultiplesNest(y);
  }

  /** An all-day event ends one calendar day after it starts, across months and leap years. */
  lemma NextDayIsNext(d: Date)
    requires ValidDate(d)
    ensures ValidDate(NextDay(d)) && DayNumber(NextDay(d)) == DayNumber(d) + 1
  {
    if d.day == DaysIn(d.year, d.month) && d.month == 12 {
      YearLength(d.year);
      LeapDays(d.year);
    }
  }
}
