/**
  torrent.go: a recognizer for one bencoded element, and the byte span of a
  torrent's info dictionary. Bytes are characters; a length prefix is an
  unbounded number.
 */
module Bencode {
  import opened Text

  // ---- the accepted grammar ----

  /**
    A derivation. It keeps what the recognizer does not check: signs of zero,
    leading zeros, key order and repeated keys, so it is a superset of the
    bencoding section of BEP 3.
   */
  datatype Node =
    | Num(negative: bool, digits: string)
    | Str(prefix: string, bytes: string)
    | List(items: Nodes)
    | Dict(entries: Entries)
  datatype Nodes = NoNodes | AndNode(head: Node, tail: Nodes)
  datatype Entries = NoEntries | AndEntry(prefix: string, key: string, value: Node, rest: Entries)

  predicate AllDigits(s: string) {
    forall k :: 0 <= k < |s| ==> IsDigit(s[k])
  }

  function Decimal(digits: string): nat
    requires AllDigits(digits)
  {
    if digits == "" then 0 else Decimal(digits[..|digits| - 1]) * 10 + (digits[|digits| - 1] - '0') as int
  }

  predicate WfString(prefix: string, bytes: string) {
    prefix != "" && AllDigits(prefix) && Decimal(prefix) == |bytes|
  }

  predicate Wf(n: Node) {
    match n
    case Num(_, digits) => digits != "" && AllDigits(digits)
    case Str(prefix, bytes) => WfString(prefix, bytes)
    case List(items) => WfNodes(items)
    case Dict(entries) => WfEntries(entries)
  }

  predicate WfNodes(ns: Nodes) {
    match ns
    case NoNodes => true
    case AndNode(n, rest) => Wf(n) && WfNodes(rest)
  }

  predicate WfEntries(es: Entries) {
    match es
    case NoEntries => true
    case AndEntry(prefix, key, value, rest) => WfString(prefix, key) && Wf(value) && WfEntries(rest)
  }

  function EncodeString(prefix: string, bytes: string): string {
    prefix + ":" + bytes
  }

  function Encode(n: Node): string {
    match n
    case Num(negative, digits) => "i" + ((if negative then "-" else "") + (digits + "e"))
    case Str(prefix, bytes) => EncodeString(prefix, bytes)
    case List(items) => "l" + (EncodeNodes(items) + "e")
    case Dict(entries) => "d" + (EncodeEntries(entries) + "e")
  }

  function EncodeNodes(ns: Nodes): string {
    match ns
    case NoNodes => ""
    case AndNode(n, rest) => Encode(n) + EncodeNodes(rest)
  }

  function EncodeEntries(es: Entries): string {
    match es
    case NoEntries => ""
    case AndEntry(prefix, key, value, rest) => EncodeString(prefix, key) + (Encode(value) + EncodeEntries(rest))
  }

  // ---- what the recognizer computes ----

  /** Where a string token's bytes, or a torrent's info value, start and end; or that there is none. */
  datatype Span = NoSpan | Span(from: nat, to: nat)

  /** The offset just past a recognized element, or a syntax error. */
  datatype End = NoEnd | End(at: nat)

  function DigitsEnd(data: string, pos: nat): (e: nat)
    requires pos <= |data|
    ensures pos <= e <= |data| && AllDigits(data[pos..e])
    ensures e < |data| ==> !IsDigit(data[e])
    decreases |data| - pos
  {
    if pos < |data| && IsDigit(data[pos]) then
      var e := DigitsEnd(data, pos + 1);
      assert data[pos..e] == [data[pos]] + data[pos + 1..e];
      e
    else pos
  }

  /** The end of the string token at pos, and where its bytes start. */
  function StringAt(data: string, pos: nat): (r: Span)
    requires pos <= |data|
    ensures r.Span? ==> pos + 1 < r.from <= r.to <= |data|
  {
    var colon := DigitsEnd(data, pos);
    if colon == pos || colon == |data| || data[colon] != ':' then NoSpan
    else
      var end := colon + 1 + Decimal(data[pos..colon]);
      if end > |data| then NoSpan else Span(colon + 1, end)
  }

  function IntegerAt(data: string, pos: nat): (r: End)
    requires pos <= |data|
    ensures r.End? ==> pos < r.at <= |data|
  {
    if pos == |data| || data[pos] != 'i' || pos + 1 == |data| then NoEnd
    else
      var first := if data[pos + 1] == '-' then pos + 2 else pos + 1;
      if first == |data| || !IsDigit(data[first]) then NoEnd
      else
        var e := DigitsEnd(data, first);
        if e == |data| || data[e] != 'e' then NoEnd else End(e + 1)
  }

  function ElementAt(data: string, pos: nat): (r: End)
    requires pos <= |data|
    ensures r.End? ==> pos < r.at <= |data|
    decreases |data| - pos, 1
  {
    if pos == |data| then NoEnd
    else if data[pos] == 'i' then IntegerAt(data, pos)
    else if data[pos] == 'l' then ItemsAt(data, pos + 1)
    else if data[pos] == 'd' then EntriesAt(data, pos + 1)
    else if IsDigit(data[pos]) then (var s := StringAt(data, pos); if s.NoSpan? then NoEnd else End(s.to))
    else NoEnd
  }

  function ItemsAt(data: string, pos: nat): (r: End)
    requires pos <= |data|
    ensures r.End? ==> pos < r.at <= |data|
    decreases |data| - pos, 2
  {
    if pos == |data| then NoEnd
    else if data[pos] == 'e' then End(pos + 1)
    else
      var next := ElementAt(data, pos);
      if next.NoEnd? then NoEnd else ItemsAt(data, next.at)
  }

  function EntriesAt(data: string, pos: nat): (r: End)
    requires pos <= |data|
    ensures r.End? ==> pos < r.at <= |data|
    decreases |data| - pos, 2
  {
    if pos == |data| then NoEnd
    else if data[pos] == 'e' then End(pos + 1)
    else
      var key := StringAt(data, pos);
      if key.NoSpan? then NoEnd
      else
        var next := ElementAt(data, key.to);
        if next.NoEnd? then NoEnd else EntriesAt(data, next.at)
  }

  // ---- the recognizer itself ----

  method ParseBencodeString(data: string, start: nat) returns (r: Span)
    requires start <= |data|
    ensures r == StringAt(data, start)
  {
    var pos := start;
    if pos >= |data| || data[pos] < '0' || data[pos] > '9' {
      return NoSpan;
    }
    var length := 0;
    while pos < |data| && '0' <= data[pos] <= '9'
      invariant start <= pos <= |data|
      invariant AllDigits(data[start..pos]) && length == Decimal(data[start..pos])
      invariant DigitsEnd(data, start) == DigitsEnd(data, pos)
    {
      assert data[start..pos + 1][..pos - start] == data[start..pos];
      length := length * 10 + (data[pos] - '0') as int;
      pos := pos + 1;
    }
    if pos >= |data| || data[pos] != ':' {
      return NoSpan;
    }
    pos := pos + 1;
    var end := pos + length;
    if end > |data| {
      return NoSpan;
    }
    return Span(pos, end);
  }

  method ParseBencodeInteger(data: string, start: nat) returns (r: End)
    requires start <= |data|
    ensures r == IntegerAt(data, start)
  {
    var pos := start;
    if pos >= |data| || data[pos] != 'i' {
      return NoEnd;
    }
    pos := pos + 1;
    if pos >= |data| {
      return NoEnd;
    }
    if data[pos] == '-' {
      pos := pos + 1;
    }
    if pos >= |data| || data[pos] < '0' || data[pos] > '9' {
      return NoEnd;
    }
    ghost var first := pos;
    while pos < |data| && '0' <= data[pos] <= '9'
      invariant first <= pos <= |data|
      invariant DigitsEnd(data, first) == DigitsEnd(data, pos)
    {
      pos := pos + 1;
    }
    if pos >= |data| || data[pos] != 'e' {
      return NoEnd;
    }
    return End(pos + 1);
  }

  method ParseBencodeElement(data: string, pos: nat) returns (r: End)
    requires pos <= |data|
    ensures r == ElementAt(data, pos)
    decreases |data| - pos, 1
  {
    if pos >= |data| {
      return NoEnd;
    }
    match data[pos] {
      case 'i' => r := ParseBencodeInteger(data, pos);
      case 'l' => r := ParseBencodeList(data, pos);
      case 'd' => r := ParseBencodeDictionary(data, pos);
      case _ =>
        if '0' <= data[pos] <= '9' {
          var s := ParseBencodeString(data, pos);
          return if s.NoSpan? then NoEnd else End(s.to);
        }
        return NoEnd;
    }
  }

  method ParseBencodeList(data: string, start: nat) returns (r: End)
    requires start < |data| && data[start] == 'l'
    ensures r == ItemsAt(data, start + 1)
    decreases |data| - start, 0
  {
    var pos := start + 1;
    while pos < |data| && data[pos] != 'e'
      invariant start < pos <= |data|
      invariant ItemsAt(data, start + 1) == ItemsAt(data, pos)
    {
      var next := ParseBencodeElement(data, pos);
      if next.NoEnd? {
        return NoEnd;
      }
      pos := next.at;
    }
    if pos >= |data| || data[pos] != 'e' {
      return NoEnd;
    }
    return End(pos + 1);
  }

  method ParseBencodeDictionary(data: string, start: nat) returns (r: End)
    requires start < |data| && data[start] == 'd'
    ensures r == EntriesAt(data, start + 1)
    decreases |data| - start, 0
  {
    var pos := start + 1;
    while pos < |data| && data[pos] != 'e'
      invariant start < pos <= |data|
      invariant EntriesAt(data, start + 1) == EntriesAt(data, pos)
    {
      var key := ParseBencodeString(data, pos);
      if key.NoSpan? {
        return NoEnd;
      }
      var next := ParseBencodeElement(data, key.to);
      if next.NoEnd? {
        return NoEnd;
      }
      pos := next.at;
    }
    if pos >= |data| || data[pos] != 'e' {
      return NoEnd;
    }
    return End(pos + 1);
  }

  // ---- soundness: what is accepted derives from the grammar ----

  lemma StringSound(data: string, pos: nat)
    requires pos <= |data| && StringAt(data, pos).Span?
    ensures var Span(from, end) := StringAt(data, pos);
      WfString(data[pos..from - 1], data[from..end])
          && data[pos..end] == EncodeString(data[pos..from - 1], data[from..end])
  {}

  lemma IntegerSound(data: string, pos: nat) returns (n: Node)
    requires pos <= |data| && IntegerAt(data, pos).End?
    ensures Wf(n) && Encode(n) == data[pos..IntegerAt(data, pos).at]
  {
    var end := IntegerAt(data, pos).at;
    var negative := data[pos + 1] == '-';
    var first := if negative then pos + 2 else pos + 1;
    n := Num(negative, data[first..end - 1]);
    assert data[first..end] == data[first..end - 1] + "e";
    assert data[pos..end] == data[pos..pos + 1] + (data[pos + 1..first] + data[first..end]);
  }

  /** An entry read before a list of entries that is already known. */
  lemma EntryBefore(data: string, pos: nat, to: nat, next: nat, end: nat, p: string, key: string, value: Node,
          rest: Entries, tail: string)
    requires pos <= to <= next <= end <= |data|
    requires data[pos..to] == EncodeString(p, key) && data[to..next] == Encode(value)
    requires data[next..end] == EncodeEntries(rest) + tail
    ensures EncodeEntries(AndEntry(p, key, value, rest)) + tail == data[pos..end]
  {
    RegroupEntry(EncodeString(p, key), Encode(value), EncodeEntries(rest), tail);
  }

  lemma RegroupEntry(a: string, b: string, c: string, d: string)
    ensures (a + (b + c)) + d == a + (b + (c + d))
  {}

  lemma StrSound(data: string, pos: nat) returns (n: Node)
    requires pos <= |data| && StringAt(data, pos).Span?
    ensures Wf(n) && Encode(n) == data[pos..StringAt(data, pos).to]
  {
    StringSound(data, pos);
    var Span(from, end) := StringAt(data, pos);
    n := Str(data[pos..from - 1], data[from..end]);
  }

  lemma {:induction false} ElementSound(data: string, pos: nat) returns (n: Node)
    requires pos <= |data| && ElementAt(data, pos).End?
    ensures Wf(n) && Encode(n) == data[pos..ElementAt(data, pos).at]
    decreases |data| - pos, 1
  {
    if data[pos] == 'i' {
      n := IntegerSound(data, pos);
    } else if data[pos] == 'l' {
      var items := ItemsSound(data, pos + 1);
      n := List(items);
      assert data[pos..ElementAt(data, pos).at] == "l" + data[pos + 1..ItemsAt(data, pos + 1).at];
    } else if data[pos] == 'd' {
      var entries := EntriesSound(data, pos + 1);
      n := Dict(entries);
      assert data[pos..ElementAt(data, pos).at] == "d" + data[pos + 1..EntriesAt(data, pos + 1).at];
    } else {
      n := StrSound(data, pos);
    }
  }

  lemma {:induction false} ItemsSound(data: string, pos: nat) returns (ns: Nodes)
    requires pos <= |data| && ItemsAt(data, pos).End?
    ensures WfNodes(ns) && EncodeNodes(ns) + "e" == data[pos..ItemsAt(data, pos).at]
    decreases |data| - pos, 2
  {
    if data[pos] == 'e' {
      ns := NoNodes;
    } else {
      var n := ElementSound(data, pos);
      var next := ElementAt(data, pos).at;
      var rest := ItemsSound(data, next);
      ns := AndNode(n, rest);
      assert data[pos..ItemsAt(data, pos).at] == data[pos..next] + data[next..ItemsAt(data, pos).at];
    }
  }

  lemma {:induction false} EntriesSound(data: string, pos: nat) returns (es: Entries)
    requires pos <= |data| && EntriesAt(data, pos).End?
    ensures WfEntries(es) && EncodeEntries(es) + "e" == data[pos..EntriesAt(data, pos).at]
    decreases |data| - pos, 2
  {
    if data[pos] == 'e' {
      es := NoEntries;
    } else {
      StringSound(data, pos);
      var Span(from, to) := StringAt(data, pos);
      var v := ElementSound(data, to);
      var next := ElementAt(data, to).at;
      var rest := EntriesSound(data, next);
      es := AndEntry(data[pos..from - 1], data[from..to], v, rest);
      EntryBefore(data, pos, to, next, EntriesAt(data, next).at, data[pos..from - 1], data[from..to], v, rest, "e");
    }
  }

  // ---- completeness: what derives from the grammar is accepted, whatever follows ----

  ghost predicate Holds(data: string, pos: nat, token: string) {
    pos + |token| <= |data| && data[pos..pos + |token|] == token
  }

  lemma HoldsParts(data: string, pos: nat, a: string, b: string)
    ensures Holds(data, pos, a + b) <==> Holds(data, pos, a) && Holds(data, pos + |a|, b)
  {
    if Holds(data, pos, a + b) {
      assert data[pos..pos + |a|] == (a + b)[..|a|];
      assert data[pos + |a|..pos + |a| + |b|] == (a + b)[|a|..];
    }
    if Holds(data, pos, a) && Holds(data, pos + |a|, b) {
      assert data[pos..pos + |a + b|] == data[pos..pos + |a|] + data[pos + |a|..pos + |a| + |b|];
    }
  }

  lemma HoldsChar(data: string, pos: nat, c: char)
    ensures Holds(data, pos, [c]) <==> pos < |data| && data[pos] == c
  {}

  /** An entry list followed by anything starts with its first key, then its value, then the rest. */
  lemma HoldsEntry(data: string, pos: nat, prefix: string, key: string, value: Node, rest: Entries, tail: string)
    returns (mid: nat, next: nat)
    requires WfString(prefix, key)
    requires Holds(data, pos, EncodeEntries(AndEntry(prefix, key, value, rest)) + tail)
    ensures mid == pos + |EncodeString(prefix, key)| && next == mid + |Encode(value)|
    ensures next + |EncodeEntries(rest)| == pos + |EncodeEntries(AndEntry(prefix, key, value, rest))|
    ensures next <= |data| && Holds(data, mid, Encode(value)) && Holds(data, next, EncodeEntries(rest) + tail)
    ensures IsDigit(data[pos]) && StringAt(data, pos) == Span(pos + |prefix| + 1, mid)
    ensures data[pos + |prefix| + 1..mid] == key
  {
    var k, v, r := EncodeString(prefix, key), Encode(value), EncodeEntries(rest);
    mid, next := pos + |k|, pos + |k| + |v|;
    RegroupEntry(k, v, r, tail);
    HoldsParts(data, pos, k, v + (r + tail));
    HoldsParts(data, mid, v, r + tail);
    StringComplete(data, pos, prefix, key);
  }

  lemma EntriesUnfold(data: string, pos: nat, from: nat, to: nat, next: nat)
    requires pos < |data| && data[pos] != 'e' && StringAt(data, pos) == Span(from, to)
    requires ElementAt(data, to) == End(next)
    ensures EntriesAt(data, pos) == EntriesAt(data, next)
  {}

  lemma SpanUnfold(data: string, pos: nat, from: nat, to: nat, next: nat)
    requires pos < |data| && data[pos] != 'e' && StringAt(data, pos) == Span(from, to)
    requires ElementAt(data, to) == End(next)
    ensures SpanFrom(data, pos) == if data[from..to] == "info" then Span(to, next) else SpanFrom(data, next)
  {}

  lemma {:induction false} DigitsComplete(data: string, pos: nat, digits: string)
    requires Holds(data, pos, digits) && AllDigits(digits)
    requires pos + |digits| < |data| && !IsDigit(data[pos + |digits|])
    ensures DigitsEnd(data, pos) == pos + |digits|
    decreases |digits|
  {
    if digits != "" {
      assert data[pos] == digits[0];
      HoldsParts(data, pos, digits[..1], digits[1..]);
      assert digits[..1] + digits[1..] == digits;
      DigitsComplete(data, pos + 1, digits[1..]);
    }
  }

  lemma StringComplete(data: string, pos: nat, prefix: string, bytes: string)
    requires WfString(prefix, bytes) && Holds(data, pos, EncodeString(prefix, bytes))
    ensures StringAt(data, pos) == Span(pos + |prefix| + 1, pos + |EncodeString(prefix, bytes)|)
    ensures data[pos + |prefix| + 1..pos + |EncodeString(prefix, bytes)|] == bytes
    ensures IsDigit(data[pos])
  {
    HoldsParts(data, pos, prefix + ":", bytes);
    HoldsParts(data, pos, prefix, ":");
    HoldsChar(data, pos + |prefix|, ':');
    DigitsComplete(data, pos, prefix);
    assert data[pos] == prefix[0];
  }

  lemma IntegerComplete(data: string, pos: nat, negative: bool, digits: string)
    requires Wf(Num(negative, digits)) && Holds(data, pos, Encode(Num(negative, digits)))
    ensures pos < |data| && data[pos] == 'i' && IntegerAt(data, pos) == End(pos + |Encode(Num(negative, digits))|)
  {
    var sign := if negative then "-" else "";
    HoldsParts(data, pos, "i", sign + (digits + "e"));
    HoldsChar(data, pos, 'i');
    HoldsParts(data, pos + 1, sign, digits + "e");
    var first := pos + 1 + |sign|;
    HoldsParts(data, first, digits, "e");
    HoldsChar(data, first + |digits|, 'e');
    if negative { HoldsChar(data, pos + 1, '-'); }
    assert data[first] == digits[0];
    DigitsComplete(data, first, digits);
  }

  lemma {:induction false} FirstChar(n: Node)
    requires Wf(n)
    ensures Encode(n) != "" && Encode(n)[0] != 'e'
    ensures n.Str? <==> IsDigit(Encode(n)[0])
  {
    if n.Str? { assert Encode(n)[0] == n.prefix[0]; }
  }

  lemma {:induction false} ElementComplete(data: string, pos: nat, n: Node)
    requires Wf(n) && Holds(data, pos, Encode(n))
    ensures ElementAt(data, pos) == End(pos + |Encode(n)|)
    decreases n
  {
    FirstChar(n);
    assert data[pos] == Encode(n)[0];
    match n
    case Num(negative, digits) => IntegerComplete(data, pos, negative, digits);
    case Str(prefix, bytes) => StringComplete(data, pos, prefix, bytes);
    case List(items) =>
      HoldsParts(data, pos, "l", EncodeNodes(items) + "e");
      ItemsComplete(data, pos + 1, items);
    case Dict(entries) =>
      HoldsParts(data, pos, "d", EncodeEntries(entries) + "e");
      EntriesComplete(data, pos + 1, entries);
  }

  lemma {:induction false} ItemsComplete(data: string, pos: nat, ns: Nodes)
    requires WfNodes(ns) && Holds(data, pos, EncodeNodes(ns) + "e")
    ensures ItemsAt(data, pos) == End(pos + |EncodeNodes(ns)| + 1)
    decreases ns
  {
    match ns
    case NoNodes => HoldsChar(data, pos, 'e');
    case AndNode(n, rest) =>
      assert EncodeNodes(ns) + "e" == Encode(n) + (EncodeNodes(rest) + "e");
      HoldsParts(data, pos, Encode(n), EncodeNodes(rest) + "e");
      FirstChar(n);
      assert data[pos] == Encode(n)[0];
      ElementComplete(data, pos, n);
      ItemsComplete(data, pos + |Encode(n)|, rest);
  }

  lemma {:induction false} EntriesComplete(data: string, pos: nat, es: Entries)
    requires WfEntries(es) && Holds(data, pos, EncodeEntries(es) + "e")
    ensures EntriesAt(data, pos) == End(pos + |EncodeEntries(es)| + 1)
    decreases es
  {
    match es
    case NoEntries => HoldsChar(data, pos, 'e');
    case AndEntry(prefix, key, value, rest) =>
      var mid, next := HoldsEntry(data, pos, prefix, key, value, rest, "e");
      ElementComplete(data, mid, value);
      EntriesComplete(data, next, rest);
      EntriesUnfold(data, pos, pos + |prefix| + 1, mid, next);
  }

  // ---- main results ----

  ghost predicate Derives(token: string) {
    exists n :: Wf(n) && Encode(n) == token
  }

  /**
    The recognizer accepts exactly the grammar: an end is reported if and only if the bytes
    up to it derive from it.
   */
  lemma RecognizesExactlyTheGrammar(data: string, pos: nat, end: nat)
    requires pos <= |data|
    ensures ElementAt(data, pos) == End(end) <==> pos <= end <= |data| && Derives(data[pos..end])
  {
    if ElementAt(data, pos) == End(end) {
      var n := ElementSound(data, pos);
    }
    if pos <= end <= |data| && Derives(data[pos..end]) {
      var n :| Wf(n) && Encode(n) == data[pos..end];
      ElementComplete(data, pos, n);
    }
  }

  /** No encoding is a proper prefix of another, so the reported end never depends on what follows. */
  lemma PrefixFree(a: string, b: string, suffix: string)
    requires Derives(a) && Derives(b) && b == a + suffix
    ensures suffix == ""
  {
    RecognizesExactlyTheGrammar(b, 0, |a|);
    RecognizesExactlyTheGrammar(b, 0, |b|);
    assert b[0..|a|] == a && b[0..|b|] == b;
  }

  lemma SuffixIrrelevant(data: string, pos: nat, suffix: string)
    requires pos <= |data| && ElementAt(data, pos).End?
    ensures ElementAt(data + suffix, pos) == ElementAt(data, pos)
  {
    var end := ElementAt(data, pos).at;
    RecognizesExactlyTheGrammar(data, pos, end);
    assert (data + suffix)[pos..end] == data[pos..end];
    RecognizesExactlyTheGrammar(data + suffix, pos, end);
  }

  // ---- BEP 3 values ----

  /** What BEP 3 encodes; a dictionary lists its pairs in whatever order the writer chose. */
  datatype Value =
    | Int(n: int)
    | Bytes(s: string)
    | ListOf(items: Values)
    | DictOf(pairs: Pairs)
  datatype Values = NoValues | AndValue(head: Value, tail: Values)
  datatype Pairs = NoPairs | AndPair(key: string, value: Value, rest: Pairs)

  function Digits(n: nat): (s: string)
    ensures s != "" && AllDigits(s) && Decimal(s) == n
  {
    if n < 10 then
      assert Decimal("") == 0;
      ['0' + n as char]
    else
      var (front, last) := (Digits(n / 10), '0' + (n % 10) as char);
      assert (front + [last])[..|front|] == front;
      front + [last]
  }

  /** The one derivation BEP 3 prescribes: no leading zeros, no negative zero. */
  function NodeOf(v: Value): Node {
    match v
    case Int(n) => Num(n < 0, Digits(if n < 0 then -n else n))
    case Bytes(s) => Str(Digits(|s|), s)
    case ListOf(items) => List(NodesOf(items))
    case DictOf(pairs) => Dict(EntriesOf(pairs))
  }

  function NodesOf(vs: Values): Nodes {
    match vs
    case NoValues => NoNodes
    case AndValue(v, rest) => AndNode(NodeOf(v), NodesOf(rest))
  }

  function EntriesOf(ps: Pairs): Entries {
    match ps
    case NoPairs => NoEntries
    case AndPair(key, v, rest) => AndEntry(Digits(|key|), key, NodeOf(v), EntriesOf(rest))
  }

  lemma NodeOfWf(v: Value)
    ensures Wf(NodeOf(v))
    decreases v
  {
    match v
    case Int(_) =>
    case Bytes(_) =>
    case ListOf(items) => NodesOfWf(items);
    case DictOf(pairs) => EntriesOfWf(pairs);
  }

  lemma NodesOfWf(vs: Values)
    ensures WfNodes(NodesOf(vs))
    decreases vs
  {
    if vs.AndValue? { NodeOfWf(vs.head); NodesOfWf(vs.tail); }
  }

  lemma EntriesOfWf(ps: Pairs)
    ensures WfEntries(EntriesOf(ps))
    decreases ps
  {
    if ps.AndPair? { NodeOfWf(ps.value); EntriesOfWf(ps.rest); }
  }

  /** Every BEP 3 value, encoded anywhere and followed by anything, is recognized to exactly its own length. */
  lemma EncodedValueParses(before: string, v: Value, after: string)
    ensures ElementAt(before + (Encode(NodeOf(v)) + after), |before|) == End(|before| + |Encode(NodeOf(v))|)
  {
    NodeOfWf(v);
    var data, token := before + (Encode(NodeOf(v)) + after), Encode(NodeOf(v));
    assert data[|before|..|before| + |token|] == token;
    ElementComplete(data, |before|, NodeOf(v));
  }

  // ---- torrentInfoSpan ----

  function SpanFrom(data: string, pos: nat): (r: Span)
    requires pos <= |data|
    ensures r.Span? ==> pos < r.from < r.to <= |data|
    decreases |data| - pos
  {
    if pos == |data| || data[pos] == 'e' then NoSpan
    else
      var key := StringAt(data, pos);
      if key.NoSpan? then NoSpan
      else
        var next := ElementAt(data, key.to);
        if next.NoEnd? then NoSpan
        else if data[key.from..key.to] == "info" then Span(key.to, next.at)
        else SpanFrom(data, next.at)
  }

  function InfoSpan(data: string): (r: Span)
    ensures r.Span? ==> r.from < r.to <= |data|
  {
    if data == "" || data[0] != 'd' then NoSpan else SpanFrom(data, 1)
  }

  method TorrentInfoSpan(data: string) returns (r: Span)
    ensures r == InfoSpan(data)
  {
    if |data| == 0 || data[0] != 'd' {
      return NoSpan;
    }
    var pos := 1;
    while pos < |data|
      invariant 1 <= pos <= |data|
      invariant SpanFrom(data, 1) == SpanFrom(data, pos)
    {
      if data[pos] == 'e' {
        return NoSpan;
      }
      var key := ParseBencodeString(data, pos);
      if key.NoSpan? {
        return NoSpan;
      }
      var valueStart := key.to;
      var valueEnd := ParseBencodeElement(data, valueStart);
      if valueEnd.NoEnd? {
        return NoSpan;
      }
      if data[key.from..key.to] == "info" {
        return Span(valueStart, valueEnd.at);
      }
      pos := valueEnd.at;
    }
    return NoSpan;
  }

  predicate NoInfoKey(es: Entries) {
    match es
    case NoEntries => true
    case AndEntry(_, key, _, rest) => key != "info" && NoInfoKey(rest)
  }

  /** Everything a torrent holds up to and including the key of its first info value. */
  function BeforeInfo(before: Entries, prefix: string): string {
    "d" + (EncodeEntries(before) + EncodeString(prefix, "info"))
  }

  lemma {:induction false} SpanFromComplete(data: string, pos: nat, before: Entries, prefix: string, info: Node)
    requires WfEntries(before) && NoInfoKey(before) && WfString(prefix, "info") && Wf(info)
    requires Holds(data, pos, EncodeEntries(before) + (EncodeString(prefix, "info") + Encode(info)))
    ensures var start := pos + |EncodeEntries(before)| + |EncodeString(prefix, "info")|;
      SpanFrom(data, pos) == Span(start, start + |Encode(info)|)
    decreases before
  {
    var tail := EncodeString(prefix, "info") + Encode(info);
    match before
    case NoEntries =>
      assert EncodeEntries(before) + tail == tail;
      InfoHere(data, pos, prefix, info);
    case AndEntry(p, key, value, rest) =>
      var mid, next := HoldsEntry(data, pos, p, key, value, rest, tail);
      ElementComplete(data, mid, value);
      SpanFromComplete(data, next, rest, prefix, info);
      SpanUnfold(data, pos, pos + |p| + 1, mid, next);
  }

  lemma InfoHere(data: string, pos: nat, prefix: string, info: Node)
    requires WfString(prefix, "info") && Wf(info) && Holds(data, pos, EncodeString(prefix, "info") + Encode(info))
    ensures var start := pos + |EncodeString(prefix, "info")|;
      SpanFrom(data, pos) == Span(start, start + |Encode(info)|)
  {
    var start := pos + |EncodeString(prefix, "info")|;
    HoldsParts(data, pos, EncodeString(prefix, "info"), Encode(info));
    StringComplete(data, pos, prefix, "info");
    ElementComplete(data, start, info);
    SpanUnfold(data, pos, pos + |prefix| + 1, start, start + |Encode(info)|);
  }

  /** What a found span means: the bytes up to it derive from entries without an info key, then an info key. */
  ghost predicate InfoBetween(data: string, pos: nat, start: nat, end: nat, before: Entries, prefix: string,
          info: Node) {
    && pos <= start <= end <= |data|
    && WfEntries(before) && NoInfoKey(before) && WfString(prefix, "info") && Wf(info)
    && EncodeEntries(before) + EncodeString(prefix, "info") == data[pos..start]
    && Encode(info) == data[start..end]
  }

  lemma SpanEntry(data: string, pos: nat) returns (p: string, key: string, value: Node, to: nat, next: nat)
    requires pos <= |data| && SpanFrom(data, pos).Span?
    ensures pos < to < next <= |data| && WfString(p, key) && Wf(value)
    ensures data[pos..to] == EncodeString(p, key) && data[to..next] == Encode(value)
    ensures SpanFrom(data, pos) == if key == "info" then Span(to, next) else SpanFrom(data, next)
  {
    StringSound(data, pos);
    var from := StringAt(data, pos).from;
    to := StringAt(data, pos).to;
    p, key := data[pos..from - 1], data[from..to];
    value := ElementSound(data, to);
    next := ElementAt(data, to).at;
    SpanUnfold(data, pos, from, to, next);
  }

  lemma {:induction false} SpanFromSound(data: string, pos: nat) returns (before: Entries, prefix: string, info: Node)
    requires pos <= |data| && SpanFrom(data, pos).Span?
    ensures InfoBetween(data, pos, SpanFrom(data, pos).from, SpanFrom(data, pos).to, before, prefix, info)
    decreases |data| - pos
  {
    var p, key, value, to, next := SpanEntry(data, pos);
    if key == "info" {
      before, prefix, info := NoEntries, p, value;
    } else {
      var rest;
      rest, prefix, info := SpanFromSound(data, next);
      before := AndEntry(p, key, value, rest);
      InfoLater(data, pos, to, next, SpanFrom(data, next), p, key, value, rest, prefix, info);
    }
  }

  lemma InfoLater(data: string, pos: nat, to: nat, next: nat, span: Span, p: string, key: string, value: Node,
          rest: Entries, prefix: string, info: Node)
    requires span.Span? && InfoBetween(data, next, span.from, span.to, rest, prefix, info)
    requires pos <= to <= next && WfString(p, key) && Wf(value) && key != "info"
    requires data[pos..to] == EncodeString(p, key) && data[to..next] == Encode(value)
    ensures InfoBetween(data, pos, span.from, span.to, AndEntry(p, key, value, rest), prefix, info)
  {
    EntryBefore(data, pos, to, next, span.from, p, key, value, rest, EncodeString(prefix, "info"));
  }

  /**
    Exactness: the span found is the value of the first info key. For every valid
    run of earlier entries and whatever follows the value, even malformed bytes.
   */
  lemma InfoSpanExact(before: Entries, prefix: string, info: Node, after: string)
    requires WfEntries(before) && NoInfoKey(before) && WfString(prefix, "info") && Wf(info)
    ensures InfoSpan(BeforeInfo(before, prefix) + (Encode(info) + after))
      == Span(|BeforeInfo(before, prefix)|, |BeforeInfo(before, prefix)| + |Encode(info)|)
  {
    InfoLayout(EncodeEntries(before), EncodeString(prefix, "info"), Encode(info), after);
    SpanFromComplete(BeforeInfo(before, prefix) + (Encode(info) + after), 1, before, prefix, info);
  }

  /** The bytes of that span, which are what gets hashed. */
  lemma InfoBytesExact(before: Entries, prefix: string, info: Node, after: string)
    requires WfEntries(before) && NoInfoKey(before) && WfString(prefix, "info") && Wf(info)
    ensures var data := BeforeInfo(before, prefix) + (Encode(info) + after);
      InfoSpan(data).Span? && data[InfoSpan(data).from..InfoSpan(data).to] == Encode(info)
  {
    InfoSpanExact(before, prefix, info, after);
    InfoLayout(EncodeEntries(before), EncodeString(prefix, "info"), Encode(info), after);
  }

  lemma InfoLayout(es: string, k: string, v: string, after: string)
    ensures var data := ("d" + (es + k)) + (v + after);
      && data[0] == 'd' && Holds(data, 1, es + (k + v))
      && Holds(data, |"d" + (es + k)|, v)
  {
    var data := ("d" + (es + k)) + (v + after);
    assert data == "d" + ((es + (k + v)) + after);
    assert data[1..1 + |es + (k + v)|] == es + (k + v);
    var start := |"d" + (es + k)|;
    assert data[start..start + |v|] == v;
  }

  /** Conversely, every span found is such a value. */
  lemma InfoSpanSound(data: string) returns (before: Entries, prefix: string, info: Node)
    requires InfoSpan(data).Span?
    ensures WfEntries(before) && NoInfoKey(before) && WfString(prefix, "info") && Wf(info)
    ensures var Span(start, end) := InfoSpan(data);
      data[..start] == BeforeInfo(before, prefix) && data[start..end] == Encode(info)
  {
    before, prefix, info := SpanFromSound(data, 1);
    var start := InfoSpan(data).from;
    assert data[..start] == "d" + data[1..start];
  }

  /** The v1 hash, for any hash function of the info bytes. */
  function InfoHash(data: string, sha1: string -> string): Option<string> {
    var span := InfoSpan(data);
    if span.NoSpan? then None else Some(sha1(data[span.from..span.to]))
  }

  /** Editing what precedes the first info entry, or anything after its value, cannot change the hash. */
  lemma InfoHashStable(b1: Entries, p1: string, after1: string, b2: Entries, p2: string, after2: string, info: Node,
          sha1: string -> string)
    requires WfEntries(b1) && NoInfoKey(b1) && WfString(p1, "info")
    requires WfEntries(b2) && NoInfoKey(b2) && WfString(p2, "info") && Wf(info)
    ensures InfoHash(BeforeInfo(b1, p1) + (Encode(info) + after1), sha1) == Some(sha1(Encode(info)))
    ensures InfoHash(BeforeInfo(b1, p1) + (Encode(info) + after1), sha1)
        == InfoHash(BeforeInfo(b2, p2) + (Encode(info) + after2), sha1)
  {
    InfoBytesExact(b1, p1, info, after1);
    InfoBytesExact(b2, p2, info, after2);
  }
}
