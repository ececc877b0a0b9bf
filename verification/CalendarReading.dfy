/**
  Reading the feed as RFC 5545 has it: lines end at CR LF, a property is a name and a
  value either side of the first colon, and an event is what BEGIN and END enclose. The
  result is that a reader gets back exactly the events that were meant, whatever the
  titles and authors contain.
 */
module CalendarReading {
  import opened Text
  import opened Calendar
  import opened CalendarFeed

  function SplitCrlf(s: string): (lines: seq<string>)
    ensures lines != []
  {
    if s == "" then [""]
    else if s[0] == '\r' && |s| > 1 && s[1] == '\n' then [""] + SplitCrlf(s[2..])
    else var rest := SplitCrlf(s[1..]); [[s[0]] + rest[0]] + rest[1..]
  }

  /** A line without a line feed is recovered whole, even one that ends in CR. */
  lemma {:induction false} SplitLine(line: string, rest: string)
    requires '\n' !in line
    ensures SplitCrlf(line + "\r\n" + rest) == [line] + SplitCrlf(rest)
  {
    var s := line + "\r\n" + rest;
    if line == "" {
      assert s[2..] == rest;
    } else {
      var tail := line[1..];
      assert s[1..] == tail + "\r\n" + rest && s[0] == line[0];
      assert s[1] == (if tail == "" then '\r' else tail[0]);
      if tail != "" { assert tail[0] == line[1]; }
      SplitLine(tail, rest);
      assert [line[0]] + tail == line;
    }
  }

  lemma EmittedLast(before: string, line: string, rest: string)
    ensures before + line + "\r\n" + rest == before + (line + "\r\n" + rest)
  {}

  lemma {:induction false} SplitEmitted(lines: seq<string>, rest: string)
    requires OneLine(lines)
    ensures SplitCrlf(Emit(lines) + rest) == lines + SplitCrlf(rest)
  {
    if lines == [] {
      assert Emit(lines) + rest == rest;
    } else {
      var n := |lines| - 1;
      var init, last := lines[..n], lines[n];
      SplitLine(last, rest);
      SplitEmitted(init, last + "\r\n" + rest);
      EmittedLast(Emit(init), last, rest);
      Regroup(init, [last], SplitCrlf(rest));
      assert lines == init + [last];
    }
  }

  // ---- no emitted line contains a line feed ----

  lemma {:induction false} NumeralIsDigits(n: nat)
    ensures forall c :: c in Numeral(n) ==> IsDigit(c)
  {
    if n != 0 { NumeralIsDigits(n / 10); }
  }

  lemma DateIsDigits(d: Date)
    ensures '\n' !in DateText(d)
  {
    NumeralIsDigits(d.year / 10000);
  }

  lemma StampIsOneLine(now: Instant)
    ensures '\n' !in StampText(now)
  {
    DateIsDigits(now.date);
    assert "T" == ['T'] && "Z" == ['Z'];
  }

  lemma HeaderIsOneLine()
    ensures OneLine(Header()) && OneLine(["END:VCALENDAR"])
  {}

  lemma DetailsAreOneLine(item: Item, d: Date, stamp: string)
    requires '\n' !in stamp
    ensures OneLine(Details(item, d, stamp))
  {
    EscapedHasNoLineFeed(item.id);
    EscapedHasNoLineFeed(Summary(item));
    EscapedHasNoLineFeed(item.format);
    DateIsDigits(d);
    DateIsDigits(NextDay(d));
  }

  lemma {:induction false} BodyIsOneLine(items: seq<Item>, stamp: string)
    requires '\n' !in stamp
    ensures OneLine(BodyLines(items, stamp))
  {
    if items != [] {
      BodyIsOneLine(items[1..], stamp);
      var d := ParseDate(items[0].releaseDate);
      if d.Some? {
        DetailsAreOneLine(items[0], d.value, stamp);
        assert OneLine(["BEGIN:VEVENT"]) && OneLine(["END:VEVENT"]);
      }
    }
  }

  /** Splitting the feed at CR LF gives back exactly the emitted lines, whatever the titles and authors contain. */
  lemma FeedSplitsIntoItsLines(items: seq<Item>, now: Instant)
    ensures SplitCrlf(Emit(FeedLines(items, now))) == FeedLines(items, now) + [""]
  {
    StampIsOneLine(now);
    HeaderIsOneLine();
    BodyIsOneLine(items, StampText(now));
    SplitEmitted(FeedLines(items, now), "");
    assert Emit(FeedLines(items, now)) + "" == Emit(FeedLines(items, now));
  }

  // ---- events ----

  datatype Prop = Prop(name: string, value: string)

  function PropOf(line: string): Prop {
    if line == "" then Prop("", "")
    else if line[0] == ':' then Prop("", line[1..])
    else var p := PropOf(line[1..]); p.(name := [line[0]] + p.name)
  }

  lemma {:induction false} PropReadsBack(name: string, value: string)
    requires ':' !in name
    ensures PropOf(name + ":" + value) == Prop(name, value)
  {
    var line := name + ":" + value;
    if name == "" {
      assert line[1..] == value;
    } else {
      assert line[1..] == name[1..] + ":" + value && line[0] == name[0];
      PropReadsBack(name[1..], value);
    }
  }

  function Props(lines: seq<string>): (p: seq<Prop>)
    ensures |p| == |lines|
  {
    if lines == [] then [] else [PropOf(lines[0])] + Props(lines[1..])
  }

  datatype Reader = Outside | Inside(props: seq<Prop>)

  /** The properties of each event enclosed by BEGIN:VEVENT and END:VEVENT, in order. */
  function ReadEvents(lines: seq<string>, r: Reader): seq<seq<Prop>> {
    if lines == [] then []
    else if lines[0] == "BEGIN:VEVENT" then ReadEvents(lines[1..], Inside([]))
    else if lines[0] == "END:VEVENT" then (if r.Inside? then [r.props] else []) + ReadEvents(lines[1..], Outside)
    else ReadEvents(lines[1..], if r.Inside? then Inside(r.props + [PropOf(lines[0])]) else r)
  }

  predicate Marker(line: string) { line == "BEGIN:VEVENT" || line == "END:VEVENT" }

  lemma {:induction false} ReadInside(lines: seq<string>, rest: seq<string>, props: seq<Prop>)
    requires forall n :: 0 <= n < |lines| ==> !Marker(lines[n])
    ensures ReadEvents(lines + rest, Inside(props)) == ReadEvents(rest, Inside(props + Props(lines)))
  {
    if lines == [] {
      assert lines + rest == rest && props + Props(lines) == props;
    } else {
      assert (lines + rest)[1..] == lines[1..] + rest && (lines + rest)[0] == lines[0];
      ReadInside(lines[1..], rest, props + [PropOf(lines[0])]);
      assert props + [PropOf(lines[0])] + Props(lines[1..]) == props + Props(lines);
    }
  }

  lemma {:induction false} ReadOutside(lines: seq<string>, rest: seq<string>)
    requires forall n :: 0 <= n < |lines| ==> !Marker(lines[n])
    ensures ReadEvents(lines + rest, Outside) == ReadEvents(rest, Outside)
  {
    if lines == [] {
      assert lines + rest == rest;
    } else {
      assert (lines + rest)[1..] == lines[1..] + rest && (lines + rest)[0] == lines[0];
      ReadOutside(lines[1..], rest);
    }
  }

  lemma ReadOne(lines: seq<string>, rest: seq<string>)
    requires forall n :: 0 <= n < |lines| ==> !Marker(lines[n])
    ensures ReadEvents(["BEGIN:VEVENT"] + lines + ["END:VEVENT"] + rest, Outside)
        == [Props(lines)] + ReadEvents(rest, Outside)
  {
    var all := ["BEGIN:VEVENT"] + lines + ["END:VEVENT"] + rest;
    var closing := ["END:VEVENT"] + rest;
    assert all[1..] == lines + closing && all[0] == "BEGIN:VEVENT";
    ReadInside(lines, closing, []);
    assert closing[1..] == rest && closing[0] == "END:VEVENT";
    assert [] + Props(lines) == Props(lines);
    assert "BEGIN:VEVENT"[0] != "END:VEVENT"[0];
  }

  // ---- what comes back ----

  /** The value of the first property of this name. */
  function Lookup(props: seq<Prop>, name: string): string {
    if props == [] then "" else if props[0].name == name then props[0].value else Lookup(props[1..], name)
  }

  datatype VEvent = VEvent(uid: string, stamp: string, start: string, end: string, summary: string, status: string,
      categories: string)

  function EventOf(props: seq<Prop>): VEvent {
    VEvent(Unescape(Lookup(props, "UID")), Lookup(props, "DTSTAMP"), Lookup(props, "DTSTART;VALUE=DATE"),
           Lookup(props, "DTEND;VALUE=DATE"), Unescape(Lookup(props, "SUMMARY")), Lookup(props, "STATUS"),
           Unescape(Lookup(props, "CATEGORIES")))
  }

  function EventsOf(all: seq<seq<Prop>>): seq<VEvent> {
    if all == [] then [] else [EventOf(all[0])] + EventsOf(all[1..])
  }

  function Read(feed: string): seq<VEvent> {
    EventsOf(ReadEvents(SplitCrlf(feed), Outside))
  }

  /** The event an item should show: one day long, its texts as stored, the author before the title if there is one. */
  function ExpectedEvent(item: Item, d: Date, now: Instant): VEvent {
    var summary := if Trim(item.author) == "" then item.title else item.author + " - " + item.title;
    VEvent(Normalize(item.id), StampText(now), DateText(d), DateText(NextDay(d)), Normalize(summary), "CONFIRMED",
           Normalize(item.format))
  }

  /** The events a calendar should show: one for every item whose date exists, in order. */
  function Expected(items: seq<Item>, now: Instant): seq<VEvent> {
    if items == [] then []
    else
      var d := ParseDate(items[0].releaseDate);
      if d.None? then Expected(items[1..], now)
      else [ExpectedEvent(items[0], d.value, now)] + Expected(items[1..], now)
  }

  /** The properties a written event has. */
  function DetailProps(item: Item, d: Date, stamp: string): seq<Prop> {
    [Prop("UID", Escape(item.id)), Prop("DTSTAMP", stamp), Prop("DTSTART;VALUE=DATE", DateText(d)),
     Prop("DTEND;VALUE=DATE", DateText(NextDay(d))), Prop("SUMMARY", Escape(Summary(item))),
     Prop("STATUS", "CONFIRMED"), Prop("CATEGORIES", Escape(item.format))]
  }

  lemma LabelReadsBack(prefix: string, name: string, value: string)
    requires prefix == name + ":" && ':' !in name
    ensures PropOf(prefix + value) == Prop(name, value)
  {
    PropReadsBack(name, value);
    assert prefix + value == name + ":" + value;
  }

  lemma LabelsReadBack(v: string)
    ensures PropOf("UID:" + v) == Prop("UID", v) && PropOf("DTSTAMP:" + v) == Prop("DTSTAMP", v)
    ensures PropOf("SUMMARY:" + v) == Prop("SUMMARY", v) && PropOf("CATEGORIES:" + v) == Prop("CATEGORIES", v)
  {
    LabelReadsBack("UID:", "UID", v);
    LabelReadsBack("DTSTAMP:", "DTSTAMP", v);
    LabelReadsBack("SUMMARY:", "SUMMARY", v);
    LabelReadsBack("CATEGORIES:", "CATEGORIES", v);
  }

  lemma StartReadsBack(v: string)
    ensures PropOf("DTSTART;VALUE=DATE:" + v) == Prop("DTSTART;VALUE=DATE", v)
  {
    LabelReadsBack("DTSTART;VALUE=DATE:", "DTSTART;VALUE=DATE", v);
  }

  lemma EndReadsBack(v: string)
    ensures PropOf("DTEND;VALUE=DATE:" + v) == Prop("DTEND;VALUE=DATE", v)
  {
    LabelReadsBack("DTEND;VALUE=DATE:", "DTEND;VALUE=DATE", v);
  }

  lemma StatusReadsBack()
    ensures PropOf("STATUS:CONFIRMED") == Prop("STATUS", "CONFIRMED")
  {
    LabelReadsBack("STATUS:", "STATUS", "CONFIRMED");
    assert "STATUS:" + "CONFIRMED" == "STATUS:CONFIRMED";
  }

  lemma {:induction false} PropsAt(lines: seq<string>, n: nat)
    requires n < |lines|
    ensures Props(lines)[n] == PropOf(lines[n])
  {
    if n > 0 { PropsAt(lines[1..], n - 1); }
  }

  lemma PropsAre(lines: seq<string>, props: seq<Prop>)
    requires |lines| == |props| && forall n :: 0 <= n < |lines| ==> PropOf(lines[n]) == props[n]
    ensures Props(lines) == props
  {
    forall n | 0 <= n < |lines| ensures Props(lines)[n] == props[n] { PropsAt(lines, n); }
  }

  lemma SevenProps(lines: seq<string>, props: seq<Prop>)
    requires |lines| == 7 && |props| == 7
    requires PropOf(lines[0]) == props[0] && PropOf(lines[1]) == props[1] && PropOf(lines[2]) == props[2]
    requires PropOf(lines[3]) == props[3] && PropOf(lines[4]) == props[4] && PropOf(lines[5]) == props[5]
    requires PropOf(lines[6]) == props[6]
    ensures Props(lines) == props
  {
    PropsAre(lines, props);
  }

  lemma StartLineReadsBack(item: Item, d: Date, stamp: string)
    ensures PropOf(Details(item, d, stamp)[2]) == DetailProps(item, d, stamp)[2]
  {
    StartReadsBack(DateText(d));
  }

  lemma EndLineReadsBack(item: Item, d: Date, stamp: string)
    ensures PropOf(Details(item, d, stamp)[3]) == DetailProps(item, d, stamp)[3]
  {
    EndReadsBack(DateText(NextDay(d)));
  }

  lemma StatusLineReadsBack(item: Item, d: Date, stamp: string)
    ensures PropOf(Details(item, d, stamp)[5]) == DetailProps(item, d, stamp)[5]
  {
    StatusReadsBack();
  }

  lemma TextsReadBack(item: Item, d: Date, stamp: string)
    ensures var lines, props := Details(item, d, stamp), DetailProps(item, d, stamp);
      && PropOf(lines[0]) == props[0] && PropOf(lines[1]) == props[1]
      && PropOf(lines[4]) == props[4] && PropOf(lines[6]) == props[6]
  {
    LabelsReadBack(Escape(item.id));
    LabelsReadBack(stamp);
    LabelsReadBack(Escape(Summary(item)));
    LabelsReadBack(Escape(item.format));
  }

  lemma DetailsReadBack(item: Item, d: Date, stamp: string)
    ensures Props(Details(item, d, stamp)) == DetailProps(item, d, stamp)
  {
    StartLineReadsBack(item, d, stamp);
    EndLineReadsBack(item, d, stamp);
    StatusLineReadsBack(item, d, stamp);
    TextsReadBack(item, d, stamp);
    SevenProps(Details(item, d, stamp), DetailProps(item, d, stamp));
  }

  /** No line of an event can pass for its beginning or its end. */
  lemma DetailsAreNoMarkers(item: Item, d: Date, stamp: string)
    ensures forall n :: 0 <= n < 7 ==> !Marker(Details(item, d, stamp)[n])
  {
    var lines := Details(item, d, stamp);
    assert lines[0][0] == 'U' && lines[1][0] == 'D' && lines[2][0] == 'D' && lines[3][0] == 'D';
    assert lines[4][0] == 'S' && lines[5][0] == 'S' && lines[6][0] == 'C';
    assert "BEGIN:VEVENT"[0] == 'B' && "END:VEVENT"[0] == 'E';
  }

  lemma HeaderHasNoMarkers()
    ensures forall n :: 0 <= n < 6 ==> !Marker(Header()[n])
    ensures !Marker("END:VCALENDAR") && !Marker("")
  {
    assert |"BEGIN:VCALENDAR"| != |"BEGIN:VEVENT"| && |"END:VCALENDAR"| != |"END:VEVENT"|;
    assert Header()[0][0] == 'B' && Header()[1][0] == 'V' && Header()[2][0] == 'P';
    assert Header()[3][0] == 'C' && Header()[4][0] == 'M' && Header()[5][0] == 'X';
    assert "BEGIN:VEVENT"[0] == 'B' && "END:VEVENT"[0] == 'E';
  }

  lemma {:induction false} LookupAt(props: seq<Prop>, n: nat)
    requires n < |props| && forall k :: 0 <= k < n ==> props[k].name != props[n].name
    ensures Lookup(props, props[n].name) == props[n].value
  {
    if n > 0 {
      assert forall k :: 0 <= k < n - 1 ==> props[1..][k] == props[k + 1];
      LookupAt(props[1..], n - 1);
    }
  }

  lemma NamesDiffer(item: Item, d: Date, stamp: string)
    ensures var p := DetailProps(item, d, stamp); forall i, j :: 0 <= i < j < 7 ==> p[i].name != p[j].name
  {
    var p := DetailProps(item, d, stamp);
    assert |p[0].name| == 3 && |p[1].name| == 7 && |p[2].name| == 18 && |p[3].name| == 16;
    assert |p[4].name| == 7 && |p[5].name| == 6 && |p[6].name| == 10;
    assert p[1].name[0] == 'D' && p[4].name[0] == 'S';
  }

  lemma DetailsAreTheEvent(item: Item, d: Date, now: Instant)
    ensures EventOf(DetailProps(item, d, StampText(now))) == ExpectedEvent(item, d, now)
  {
    var p := DetailProps(item, d, StampText(now));
    NamesDiffer(item, d, StampText(now));
    forall n | 0 <= n < 7 ensures Lookup(p, p[n].name) == p[n].value { LookupAt(p, n); }
    assert p[0].name == "UID" && p[1].name == "DTSTAMP" && p[2].name == "DTSTART;VALUE=DATE"
        && p[3].name == "DTEND;VALUE=DATE";
    assert p[4].name == "SUMMARY" && p[5].name == "STATUS" && p[6].name == "CATEGORIES";
    EscapeRoundTrip(item.id);
    EscapeRoundTrip(Summary(item));
    EscapeRoundTrip(item.format);
  }

  function ReadOutsideOf(lines: seq<string>): seq<VEvent> { EventsOf(ReadEvents(lines, Outside)) }

  lemma EventReadsBack(item: Item, d: Date, now: Instant, after: seq<string>)
    ensures ReadOutsideOf(EventLines(item, d, StampText(now)) + after)
        == [ExpectedEvent(item, d, now)] + ReadOutsideOf(after)
  {
    var lines := Details(item, d, StampText(now));
    DetailsAreNoMarkers(item, d, StampText(now));
    ReadOne(lines, after);
    DetailsReadBack(item, d, StampText(now));
    DetailsAreTheEvent(item, d, now);
    var all := [Props(lines)] + ReadEvents(after, Outside);
    assert all[1..] == ReadEvents(after, Outside);
  }

  lemma BodyCons(items: seq<Item>, stamp: string, rest: seq<string>)
    requires items != []
    ensures BodyLines(items, stamp) + rest
      == (var d, after := ParseDate(items[0].releaseDate), BodyLines(items[1..], stamp) + rest;
          if d.None? then after else EventLines(items[0], d.value, stamp) + after)
  {
    if ParseDate(items[0].releaseDate).None? {
      assert BodyLines(items, stamp) == BodyLines(items[1..], stamp);
    } else {
      Regroup(EventLines(items[0], ParseDate(items[0].releaseDate).value, stamp), BodyLines(items[1..], stamp), rest);
    }
  }

  lemma {:induction false} BodyReadsBack(items: seq<Item>, now: Instant, rest: seq<string>)
    ensures ReadOutsideOf(BodyLines(items, StampText(now)) + rest) == Expected(items, now) + ReadOutsideOf(rest)
  {
    if items == [] {
      assert BodyLines(items, StampText(now)) + rest == rest;
    } else {
      BodyReadsBack(items[1..], now, rest);
      BodyCons(items, StampText(now), rest);
      var d := ParseDate(items[0].releaseDate);
      if d.Some? {
        EventReadsBack(items[0], d.value, now, BodyLines(items[1..], StampText(now)) + rest);
        Regroup([ExpectedEvent(items[0], d.value, now)], Expected(items[1..], now), ReadOutsideOf(rest));
      }
    }
  }

  /**
    Reading the written feed gives back exactly one event for each item whose release
    date exists, in order, starting that day and ending the next, with the stored texts
    up to the spelling of line breaks, whatever those texts contain.
   */
  lemma FeedReadsBack(items: seq<Item>, now: Instant)
    ensures Read(Emit(FeedLines(items, now))) == Expected(items, now)
  {
    FeedSplitsIntoItsLines(items, now);
    HeaderHasNoMarkers();
    var last := ["END:VCALENDAR", ""];
    var body := BodyLines(items, StampText(now)) + last;
    assert FeedLines(items, now) + [""] == Header() + body;
    ReadOutside(Header(), body);
    BodyReadsBack(items, now, last);
    ReadOutside(last, []);
    assert last + [] == last;
    assert Expected(items, now) + [] == Expected(items, now);
  }

  /** Around its events the feed says what it is: an iCalendar 2.0 object of this product, published under its name. */
  lemma FeedFrame(items: seq<Item>, now: Instant)
    ensures var lines, n := FeedLines(items, now), |FeedLines(items, now)|;
      && n >= 7 && lines[0] == "BEGIN:VCALENDAR" && lines[1] == "VERSION:2.0"
      && lines[2] == "PRODID:-//librarry//calendar//EN" && lines[3] == "CALSCALE:GREGORIAN"
      && lines[4] == "METHOD:PUBLISH" && lines[5] == "X-WR-CALNAME:Librarry Books"
      && lines[n - 1] == "END:VCALENDAR"
  {
    var head, body := Header(), BodyLines(items, StampText(now));
    assert forall k :: 0 <= k < 6 ==> FeedLines(items, now)[k] == head[k];
    assert |FeedLines(items, now)| == 6 + |body| + 1;
  }
}
