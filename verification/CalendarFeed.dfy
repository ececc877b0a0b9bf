/**
  The feed as a program: its digits and stamps, the date a stored text stands for, the
  line writer, and the loop that writes one event for every item that has a date. What
  is written is proved equal to the list of lines the reading module starts from.
 */
module CalendarFeed {
  import opened Text
  import opened Calendar

  // ---- numbers and dates as text ----

  function Digit(n: nat): char { ((n % 10) + ('0' as int)) as char }

  function TwoDigits(n: nat): string { [Digit(n / 10), Digit(n)] }

  function Numeral(n: nat): string {
    if n == 0 then "" else Numeral(n / 10) + [Digit(n)]
  }

  /** Years take four digits; the day after 9999-12-31 needs a fifth. */
  function DateText(d: Date): string {
    Numeral(d.year / 10000) + FourDigits(d.year) + TwoDigits(d.month) + TwoDigits(d.day)
  }

  function FourDigits(y: nat): string { [Digit(y / 1000), Digit(y / 100), Digit(y / 10), Digit(y)] }

  datatype Instant = Instant(date: Date, hour: nat, minute: nat, second: nat)

  function StampText(t: Instant): string {
    DateText(t.date) + "T" + TwoDigits(t.hour) + TwoDigits(t.minute) + TwoDigits(t.second) + "Z"
  }

  function Value(c: char): nat
    requires IsDigit(c)
  {
    (c as int) - ('0' as int)
  }

  predicate DateShaped(s: string) {
    && |s| == 10 && s[4] == '-' && s[7] == '-'
    && IsDigit(s[0]) && IsDigit(s[1]) && IsDigit(s[2]) && IsDigit(s[3])
    && IsDigit(s[5]) && IsDigit(s[6]) && IsDigit(s[8]) && IsDigit(s[9])
  }

  /** yyyy-mm-dd, a day that exists. */
  function ParseDate(s: string): Option<Date> {
    if !DateShaped(s) then None
    else
      var d := Date(1000 * Value(s[0]) + 100 * Value(s[1]) + 10 * Value(s[2]) + Value(s[3]),
                    10 * Value(s[5]) + Value(s[6]), 10 * Value(s[8]) + Value(s[9]));
      if ValidDate(d) then Some(d) else None
  }

  lemma DigitOfValue(a: nat, b: nat, c: char)
    requires IsDigit(c) && a == 10 * b + Value(c)
    ensures Digit(a) == c && a / 10 == b
  {}

  /** A stored text is a date exactly when it is four, two and two digits between dashes and names a day that exists. */
  lemma DateExactly(s: string, d: Date)
    requires d.year < 10000
    ensures ParseDate(s) == Some(d) <==>
      && |s| == 10 && (forall n :: 0 <= n < 10 ==> if n == 4 || n == 7 then s[n] == '-' else '0' <= s[n] <= '9')
      && d.year == 1000 * (s[0] - '0') as int + 100 * (s[1] - '0') as int + 10 * (s[2] - '0') as int
                   + (s[3] - '0') as int
      && d.month == 10 * (s[5] - '0') as int + (s[6] - '0') as int
      && d.day == 10 * (s[8] - '0') as int + (s[9] - '0') as int
      && 1 <= d.month <= 12 && 1 <= d.day <= DaysIn(d.year, d.month)
  {}

  /** An event starts on the day that was stored, digit for digit. */
  lemma StartsAsStored(s: string)
    requires ParseDate(s).Some?
    ensures DateText(ParseDate(s).value) == s[0..4] + s[5..7] + s[8..10]
  {
    var d := ParseDate(s).value;
    var y3, y2, y1 := Value(s[0]), 10 * Value(s[0]) + Value(s[1]), 100 * Value(s[0]) + 10 * Value(s[1]) + Value(s[2]);
    DigitOfValue(d.year, y1, s[3]);
    DigitOfValue(y1, y2, s[2]);
    DigitOfValue(y2, y3, s[1]);
    DigitOfValue(y3, 0, s[0]);
    assert d.year / 100 == y2 && d.year / 1000 == y3;
    DigitOfValue(d.month, Value(s[5]), s[6]);
    DigitOfValue(Value(s[5]), 0, s[5]);
    DigitOfValue(d.day, Value(s[8]), s[9]);
    DigitOfValue(Value(s[8]), 0, s[8]);
    assert DateText(d) == [s[0], s[1], s[2], s[3]] + [s[5], s[6]] + [s[8], s[9]];
  }

  lemma TwoDigitsRead(n: nat)
    requires n < 100
    ensures var t := TwoDigits(n);
      |t| == 2 && IsDigit(t[0]) && IsDigit(t[1]) && 10 * Value(t[0]) + Value(t[1]) == n
  {}

  lemma DigitReads(n: nat)
    ensures IsDigit(Digit(n)) && Value(Digit(n)) == n % 10
  {}

  lemma TensOf(y: nat)
    ensures y / 100 == y / 10 / 10 && y / 1000 == y / 100 / 10
  {}

  lemma Decimals(y: nat)
    requires y < 10000
    ensures y == 1000 * (y / 1000 % 10) + 100 * (y / 100 % 10) + 10 * (y / 10 % 10) + y % 10
  {
    TensOf(y);
    var c, b, a := y / 10, y / 100, y / 1000;
    assert y == 10 * c + y % 10 && c == 10 * b + c % 10 && b == 10 * a + b % 10 && a < 10;
  }

  lemma FourDigitsRead(y: nat)
    requires y < 10000
    ensures var t := FourDigits(y);
      && |t| == 4 && IsDigit(t[0]) && IsDigit(t[1]) && IsDigit(t[2]) && IsDigit(t[3])
      && 1000 * Value(t[0]) + 100 * Value(t[1]) + 10 * Value(t[2]) + Value(t[3]) == y
  {
    DigitReads(y / 1000);
    DigitReads(y / 100);
    DigitReads(y / 10);
    DigitReads(y);
    Decimals(y);
  }

  /** A printed date is eight digits that read back as the date. */
  lemma DateReadsBack(d: Date)
    requires ValidDate(d) && d.year < 10000
    ensures |DateText(d)| == 8
    ensures var t := DateText(d); ParseDate(t[..4] + "-" + t[4..6] + "-" + t[6..]) == Some(d)
  {
    var t := DateText(d);
    FourDigitsRead(d.year);
    TwoDigitsRead(d.month);
    TwoDigitsRead(d.day);
    assert DaysIn(d.year, d.month) <= 31;
    assert t == FourDigits(d.year) + (TwoDigits(d.month) + TwoDigits(d.day));
    var s := t[..4] + "-" + t[4..6] + "-" + t[6..];
    assert s[4] == '-' && s[7] == '-';
    assert s[0] == t[0] && s[1] == t[1] && s[2] == t[2] && s[3] == t[3];
    assert s[5] == t[4] && s[6] == t[5] && s[8] == t[6] && s[9] == t[7];
  }

  /** The day after 9999-12-31 has a fifth digit in front. */
  lemma FiveDigitYear(d: Date)
    requires 10000 <= d.year < 100000
    ensures |DateText(d)| == 9 && IsDigit(DateText(d)[0]) && Value(DateText(d)[0]) == d.year / 10000
  {
    assert Numeral(d.year / 10000) == [Digit(d.year / 10000)] by {
      assert d.year / 10000 < 10;
      assert Numeral(0) == "";
    }
    assert DateText(d) == Numeral(d.year / 10000) + (FourDigits(d.year) + TwoDigits(d.month) + TwoDigits(d.day));
    DigitReads(d.year / 10000);
  }

  /** A stamp is a date, a T, two digits each for hour, minute and second, and a Z. */
  lemma StampReadsBack(t: Instant)
    requires ValidDate(t.date) && t.date.year < 10000 && t.hour < 24 && t.minute < 60 && t.second < 60
    ensures var s := StampText(t);
      && |s| == 16 && s[..8] == DateText(t.date) && s[8] == 'T' && s[15] == 'Z'
      && (forall n :: 9 <= n < 15 ==> IsDigit(s[n]))
      && 10 * Value(s[9]) + Value(s[10]) == t.hour && 10 * Value(s[11]) + Value(s[12]) == t.minute
      && 10 * Value(s[13]) + Value(s[14]) == t.second
  {
    DateReadsBack(t.date);
    TwoDigitsRead(t.hour);
    TwoDigitsRead(t.minute);
    TwoDigitsRead(t.second);
    var s, h, m, c := StampText(t), TwoDigits(t.hour), TwoDigits(t.minute), TwoDigits(t.second);
    assert s == DateText(t.date) + ("T" + h + m + c + "Z");
    assert s[9] == h[0] && s[10] == h[1] && s[11] == m[0] && s[12] == m[1] && s[13] == c[0] && s[14] == c[1];
  }

  // ---- writing ----

  function Emit(lines: seq<string>): string {
    if lines == [] then "" else Emit(lines[..|lines| - 1]) + lines[|lines| - 1] + "\r\n"
  }

  /** The builder and its line writer; `lines` records what was asked for. */
  class LineWriter {
    var text: string
    ghost var lines: seq<string>

    ghost predicate Valid()
      reads this
    {
      text == Emit(lines)
    }

    constructor ()
      ensures Valid() && lines == []
    {
      text, lines := "", [];
    }

    method WriteLine(line: string)
      requires Valid()
      modifies this
      ensures Valid() && lines == old(lines) + [line]
    {
      text := text + line + "\r\n";
      lines := lines + [line];
      assert lines[..|lines| - 1] == old(lines);
    }
  }

  function Summary(item: Item): string {
    if Trim(item.author) != "" then item.author + " - " + item.title else item.title
  }

  function Header(): seq<string> {
    ["BEGIN:VCALENDAR", "VERSION:2.0", "PRODID:-//librarry//calendar//EN", "CALSCALE:GREGORIAN", "METHOD:PUBLISH",
     "X-WR-CALNAME:Librarry Books"]
  }

  function Details(item: Item, d: Date, stamp: string): seq<string> {
    ["UID:" + Escape(item.id), "DTSTAMP:" + stamp, "DTSTART;VALUE=DATE:" + DateText(d),
     "DTEND;VALUE=DATE:" + DateText(NextDay(d)), "SUMMARY:" + Escape(Summary(item)), "STATUS:CONFIRMED",
     "CATEGORIES:" + Escape(item.format)]
  }

  function EventLines(item: Item, d: Date, stamp: string): seq<string> {
    ["BEGIN:VEVENT"] + Details(item, d, stamp) + ["END:VEVENT"]
  }

  function BodyLines(items: seq<Item>, stamp: string): seq<string> {
    if items == [] then []
    else
      var d := ParseDate(items[0].releaseDate);
      (if d.None? then [] else EventLines(items[0], d.value, stamp)) + BodyLines(items[1..], stamp)
  }

  function FeedLines(items: seq<Item>, now: Instant): seq<string> {
    Header() + BodyLines(items, StampText(now)) + ["END:VCALENDAR"]
  }

  lemma NineAppended<T>(s: seq<T>, a: T, b: T, c: T, d: T, e: T, f: T, g: T, h: T, i: T)
    ensures s + [a] + [b] + [c] + [d] + [e] + [f] + [g] + [h] + [i] == s + ([a] + [b, c, d, e, f, g, h] + [i])
  {}

  method WriteEvent(w: LineWriter, item: Item, d: Date, stamp: string)
    requires w.Valid()
    modifies w
    ensures w.Valid() && w.lines == old(w.lines) + EventLines(item, d, stamp)
  {
    var summary := item.title;
    if Trim(item.author) != "" {
      summary := item.author + " - " + item.title;
    }
    w.WriteLine("BEGIN:VEVENT");
    w.WriteLine("UID:" + Escape(item.id));
    w.WriteLine("DTSTAMP:" + stamp);
    w.WriteLine("DTSTART;VALUE=DATE:" + DateText(d));
    w.WriteLine("DTEND;VALUE=DATE:" + DateText(NextDay(d)));
    w.WriteLine("SUMMARY:" + Escape(summary));
    w.WriteLine("STATUS:CONFIRMED");
    w.WriteLine("CATEGORIES:" + Escape(item.format));
    w.WriteLine("END:VEVENT");
    ghost var p := Details(item, d, stamp);
    NineAppended(old(w.lines), "BEGIN:VEVENT", p[0], p[1], p[2], p[3], p[4], p[5], p[6], "END:VEVENT");
    assert p == [p[0], p[1], p[2], p[3], p[4], p[5], p[6]];
  }

  method WriteHeader(w: LineWriter)
    requires w.Valid() && w.lines == []
    modifies w
    ensures w.Valid() && w.lines == Header()
  {
    w.WriteLine("BEGIN:VCALENDAR");
    w.WriteLine("VERSION:2.0");
    w.WriteLine("PRODID:-//librarry//calendar//EN");
    w.WriteLine("CALSCALE:GREGORIAN");
    w.WriteLine("METHOD:PUBLISH");
    w.WriteLine("X-WR-CALNAME:Librarry Books");
    ghost var h := Header();
    assert h == [h[0], h[1], h[2], h[3], h[4], h[5]];
  }

  lemma BodyStep(items: seq<Item>, n: nat, stamp: string)
    requires n < |items|
    ensures BodyLines(items[n..], stamp)
      == (var d, rest := ParseDate(items[n].releaseDate), BodyLines(items[n + 1..], stamp);
          if d.None? then rest else EventLines(items[n], d.value, stamp) + rest)
  {
    assert items[n..][1..] == items[n + 1..];
  }

  lemma Regroup<T>(a: seq<T>, b: seq<T>, c: seq<T>)
    ensures a + (b + c) == (a + b) + c
  {}

  method RenderCalendarICS(items: seq<Item>, now: Instant) returns (text: string)
    ensures text == Emit(FeedLines(items, now))
  {
    var w := new LineWriter();
    WriteHeader(w);
    var stamp := StampText(now);
    for n := 0 to |items|
      invariant w.Valid() && fresh(w)
      invariant w.lines + BodyLines(items[n..], stamp) == Header() + BodyLines(items, stamp)
    {
      BodyStep(items, n, stamp);
      var date := ParseDate(items[n].releaseDate);
      if date.None? {
        continue;
      }
      Regroup(w.lines, EventLines(items[n], date.value, stamp), BodyLines(items[n + 1..], stamp));
      WriteEvent(w, items[n], date.value, stamp);
    }
    assert w.lines == Header() + BodyLines(items, stamp);
    w.WriteLine("END:VCALENDAR");
    text := w.text;
  }
}
