/**
  The keys of intents.go: a torrent's canonical identity, and the request and
  scope keys derived from it. Hashes are arbitrary functions; where distinctness
  matters they are assumed injective.
 */
module Identity {
  import opened Text
  import Bencode

  type Byte = n: int | 0 <= n < 256

  // ---- bit groups, most significant bit first ----

  function Bits(n: nat, w: nat): (bits: seq<bool>)
    ensures |bits| == w
  {
    if w == 0 then [] else Bits(n / 2, w - 1) + [n % 2 == 1]
  }

  function Number(bits: seq<bool>): (n: nat)
    ensures n < Pow2(|bits|)
  {
    if bits == [] then 0 else 2 * Number(bits[..|bits| - 1]) + if bits[|bits| - 1] then 1 else 0
  }

  lemma {:induction false} NumberOfBits(n: nat, w: nat)
    requires n < Pow2(w)
    ensures Number(Bits(n, w)) == n
  {
    if w > 0 {
      NumberOfBits(n / 2, w - 1);
      assert Bits(n, w)[..w - 1] == Bits(n / 2, w - 1);
    }
  }

  lemma {:induction false} BitsOfNumber(bits: seq<bool>)
    ensures Bits(Number(bits), |bits|) == bits
  {
    if bits != [] {
      BitsOfNumber(bits[..|bits| - 1]);
    }
  }

  /** All the bits of numbers of w bits each. */
  function Spread(ns: seq<nat>, w: nat): (bits: seq<bool>)
    ensures |bits| == |ns| * w
  {
    if ns == [] then [] else Bits(ns[0], w) + Spread(ns[1..], w)
  }

  /** Bits cut into n numbers of w bits each. */
  function Gather(bits: seq<bool>, n: nat, w: nat): (ns: seq<nat>)
    requires |bits| == n * w
    ensures |ns| == n && forall k :: 0 <= k < n ==> ns[k] < Pow2(w)
  {
    if n == 0 then []
    else
      [Number(bits[..w])] + Gather(bits[w..], n - 1, w)
  }

  lemma {:induction false} GatherOfSpread(ns: seq<nat>, w: nat)
    requires forall k :: 0 <= k < |ns| ==> ns[k] < Pow2(w)
    ensures Gather(Spread(ns, w), |ns|, w) == ns
  {
    if ns != [] {
      GatherOfSpread(ns[1..], w);
      NumberOfBits(ns[0], w);
      var bits := Spread(ns, w);
      assert bits[..w] == Bits(ns[0], w) && bits[w..] == Spread(ns[1..], w);
    }
  }

  lemma {:induction false} SpreadOfGather(bits: seq<bool>, n: nat, w: nat)
    requires |bits| == n * w
    ensures Spread(Gather(bits, n, w), w) == bits
  {
    if n > 0 {
      SpreadOfGather(bits[w..], n - 1, w);
      BitsOfNumber(bits[..w]);
    }
  }

  // ---- base32 (section 6 of RFC 4648) and hex (section 8 of RFC 4648) ----

  predicate IsBase32(c: char) { 'A' <= c <= 'Z' || '2' <= c <= '7' }

  function Base32Value(c: char): (n: nat)
    requires IsBase32(c)
    ensures n < 32
  {
    if 'A' <= c then (c - 'A') as int else (c - '2') as int + 26
  }

  function Base32Symbol(n: nat): (c: char)
    requires n < 32
    ensures IsBase32(c) && Base32Value(c) == n
  {
    if n < 26 then 'A' + n as char else '2' + (n - 26) as char
  }

  predicate AllBase32(s: string) {
    forall k :: 0 <= k < |s| ==> IsBase32(s[k])
  }

  function Base32Values(s: string): (ns: seq<nat>)
    requires AllBase32(s)
    ensures |ns| == |s| && forall k :: 0 <= k < |s| ==> ns[k] == Base32Value(s[k])
  {
    seq(|s|, i requires 0 <= i < |s| => Base32Value(s[i]))
  }

  /** Five bytes are eight symbols: 160 bits are 20 bytes, or 32 symbols. */
  function Base32Encode(bytes: seq<Byte>): (s: string)
    requires |bytes| == 20
    ensures |s| == 32 && AllBase32(s)
  {
    assert Pow2(5) == 32;
    var ns := Gather(Spread(bytes, 8), 32, 5);
    seq(32, i requires 0 <= i < 32 => Base32Symbol(ns[i]))
  }

  function Base32Decode(s: string): (bytes: seq<Byte>)
    requires |s| == 32 && AllBase32(s)
    ensures |bytes| == 20
  {
    assert Pow2(8) == 256;
    Gather(Spread(Base32Values(s), 5), 20, 8)
  }

  lemma Base32RoundTrip(bytes: seq<Byte>)
    requires |bytes| == 20
    ensures Base32Decode(Base32Encode(bytes)) == bytes
  {
    assert Pow2(5) == 32 && Pow2(8) == 256;
    var ns := Gather(Spread(bytes, 8), 32, 5);
    assert Base32Values(Base32Encode(bytes)) == ns;
    SpreadOfGather(Spread(bytes, 8), 32, 5);
    GatherOfSpread(bytes, 8);
  }

  lemma Base32RoundTripBack(s: string)
    requires |s| == 32 && AllBase32(s)
    ensures Base32Encode(Base32Decode(s)) == s
  {
    assert Pow2(5) == 32 && Pow2(8) == 256;
    var ns := Base32Values(s);
    SpreadOfGather(Spread(ns, 5), 20, 8);
    GatherOfSpread(ns, 5);
    assert forall k :: 0 <= k < 32 ==> Base32Symbol(ns[k]) == s[k];
  }

  predicate IsHex(c: char) { '0' <= c <= '9' || 'a' <= c <= 'f' || 'A' <= c <= 'F' }

  predicate AllHex(s: string) {
    forall k :: 0 <= k < |s| ==> IsHex(s[k])
  }

  function HexDigit(n: nat): (c: char)
    requires n < 16
    ensures IsHex(c) && LowerChar(c) == c && HexValue(c) == n
  {
    if n < 10 then '0' + n as char else 'a' + (n - 10) as char
  }

  function HexValue(c: char): (n: nat)
    requires IsHex(c)
    ensures n < 16
  {
    if c <= '9' then (c - '0') as int else if c <= 'F' then (c - 'A') as int + 10 else (c - 'a') as int + 10
  }

  function HexEncode(bytes: seq<Byte>): (s: string)
    ensures |s| == 2 * |bytes| && forall i :: 0 <= i < |s| ==> s[i] == Nibble(bytes, i)
  {
    seq(2 * |bytes|, i requires 0 <= i < 2 * |bytes| => Nibble(bytes, i))
  }

  /** The digit of one half of a byte, high half first. */
  function Nibble(bytes: seq<Byte>, i: nat): (c: char)
    requires i < 2 * |bytes|
    ensures IsHex(c) && LowerChar(c) == c
  {
    HexDigit(if i % 2 == 0 then bytes[i / 2] / 16 else bytes[i / 2] % 16)
  }

  lemma ByteOfNibbles(bytes: seq<Byte>, k: nat)
    requires k < |bytes|
    ensures bytes[k] == HexValue(HexEncode(bytes)[2 * k]) * 16 + HexValue(HexEncode(bytes)[2 * k + 1])
  {
    assert (2 * k) % 2 == 0 && (2 * k) / 2 == k && (2 * k + 1) % 2 == 1 && (2 * k + 1) / 2 == k;
  }

  function HexDecode(s: string): (bytes: seq<Byte>)
    requires |s| % 2 == 0 && AllHex(s)
    ensures |bytes| == |s| / 2
  {
    seq(|s| / 2, i requires 0 <= i < |s| / 2 => HexValue(s[2 * i]) * 16 + HexValue(s[2 * i + 1]))
  }

  lemma HexInjective(a: seq<Byte>, b: seq<Byte>)
    requires HexEncode(a) == HexEncode(b)
    ensures a == b
  {
    assert |a| == |b|;
    forall k | 0 <= k < |a| ensures a[k] == b[k] {
      ByteOfNibbles(a, k);
      ByteOfNibbles(b, k);
    }
  }

  lemma HexRoundTripBack(s: string)
    requires |s| % 2 == 0 && AllHex(s)
    ensures HexEncode(HexDecode(s)) == Lower(s)
  {
    var bytes := HexDecode(s);
    forall i | 0 <= i < |s| ensures HexEncode(bytes)[i] == LowerChar(s[i]) {
      var k := i / 2;
      assert bytes[k] == HexValue(s[2 * k]) * 16 + HexValue(s[2 * k + 1]);
      assert bytes[k] / 16 == HexValue(s[2 * k]) && bytes[k] % 16 == HexValue(s[2 * k + 1]);
      assert HexDigit(HexValue(s[i])) == LowerChar(s[i]);
    }
  }

  // ---- torrentIdentity ----

  /**
    What the code does to a chosen value. A 32-character value that is not 32
    alphabet symbols never decodes to 20 bytes, so it ends up with the wrong length
    either way.
   */
  function Canonical(value: string): string {
    var v := if |value| == 32 && AllBase32(Upper(value)) then HexEncode(Base32Decode(Upper(value))) else value;
    if |v| != 40 || !AllHex(v) then "" else Lower(v)
  }

  /** Upper-casing or lower-casing a value spells the same hash. */
  ghost predicate Spells(value: string, hash: seq<Byte>)
    requires |hash| == 20
  {
    Upper(value) == Base32Encode(hash) || Lower(value) == HexEncode(hash)
  }

  /**
    A value has the identity of a 20-byte hash exactly when it spells that hash in
    base32 or in hex, in any letter case.
   */
  lemma CanonicalExactly(value: string, hash: seq<Byte>)
    requires |hash| == 20
    ensures Canonical(value) == HexEncode(hash) <==> Spells(value, hash)
  {
    var h := HexEncode(hash);
    if |value| == 32 {
      var u := Upper(value);
      if AllBase32(u) {
        Base32RoundTripBack(u);
        if Canonical(value) == h { HexInjective(Base32Decode(u), hash); }
      }
      if u == Base32Encode(hash) { Base32RoundTrip(hash); }
    } else {
      assert |Upper(value)| != 32;
    }
  }

  /** Every non-empty identity is the 40-character lower-case hex form of exactly one 20-byte hash. */
  lemma IdentityIsAHash(value: string)
    requires Canonical(value) != ""
    ensures |Canonical(value)| == 40 && Canonical(value) == HexEncode(HexDecode(Canonical(value)))
    ensures Spells(value, HexDecode(Canonical(value)))
  {
    var v := if |value| == 32 && AllBase32(Upper(value)) then HexEncode(Base32Decode(Upper(value))) else value;
    HexRoundTripBack(Canonical(value));
    LowerIdempotent(v);
    CanonicalExactly(value, HexDecode(Canonical(value)));
  }

  /** An identity is its own identity. */
  lemma CanonicalIdempotent(value: string)
    ensures Canonical(Canonical(value)) == Canonical(value)
  {}

  /** Distinct hashes never share an identity, whatever spelled them. */
  lemma DistinctHashesDistinctIdentities(v1: string, h1: seq<Byte>, v2: string, h2: seq<Byte>)
    requires |h1| == 20 && |h2| == 20 && Spells(v1, h1) && Spells(v2, h2)
    ensures Canonical(v1) == Canonical(v2) <==> h1 == h2
  {
    CanonicalExactly(v1, h1);
    CanonicalExactly(v2, h2);
    if Canonical(v1) == Canonical(v2) { HexInjective(h1, h2); }
  }

  /** The parts of a download request the keys depend on; `xts` are the xt parameters when the URL is a magnet link. */
  datatype Request = Request(infoHash: string, upload: string, releaseUrl: string, xts: seq<string>, tags: seq<string>)

  const BTIH: string := "urn:btih:"

  predicate IsBtih(xt: string) {
    HasPrefix(Lower(xt), BTIH)
  }

  /** The first urn:btih parameter, else the trimmed info hash field. */
  function ChosenValue(r: Request): string {
    FirstBtih(r.xts, Trim(r.infoHash))
  }

  function FirstBtih(xts: seq<string>, otherwise: string): string {
    if xts == [] then otherwise
    else if IsBtih(xts[0]) then xts[0][|BTIH|..]
    else FirstBtih(xts[1..], otherwise)
  }

  function IdentityOf(r: Request, sha1: string -> string): string {
    var uploaded := Bencode.InfoHash(r.upload, sha1);
    if r.upload != "" && uploaded.Some? then uploaded.value else Canonical(ChosenValue(r))
  }

  method TorrentIdentity(r: Request, sha1: string -> string) returns (id: string)
    ensures id == IdentityOf(r, sha1)
  {
    var value := Trim(r.infoHash);
    if |r.upload| > 0 {
      var span := Bencode.TorrentInfoSpan(r.upload);
      if span.Span? {
        return sha1(r.upload[span.from..span.to]);
      }
    }
    var n := 0;
    while n < |r.xts|
      invariant 0 <= n <= |r.xts|
      invariant value == Trim(r.infoHash)
      invariant FirstBtih(r.xts, value) == FirstBtih(r.xts[n..], value)
    {
      if IsBtih(r.xts[n]) {
        value := r.xts[n][|BTIH|..];
        break;
      }
      n := n + 1;
    }
    return Canonical(value);
  }

  /** There is no upload, or none a hash can be read from. */
  ghost predicate NoUploadHash(r: Request, sha1: string -> string) {
    r.upload == "" || Bencode.InfoHash(r.upload, sha1).None?
  }

  ghost predicate NoneBtih(xts: seq<string>) {
    forall k :: 0 <= k < |xts| ==> !IsBtih(xts[k])
  }

  lemma {:induction false} BtihBehind(before: seq<string>, rest: seq<string>, otherwise: string)
    requires NoneBtih(before)
    ensures FirstBtih(before + rest, otherwise) == FirstBtih(rest, otherwise)
  {
    if before == [] {
      assert before + rest == rest;
    } else {
      assert (before + rest)[1..] == before[1..] + rest;
      BtihBehind(before[1..], rest, otherwise);
    }
  }

  /**
    A magnet link has the identity of the hash its first urn:btih parameter spells, whatever
    the case of the urn, whatever other parameters stand before or behind it, and whatever the
    info hash field and an unreadable upload hold.
   */
  lemma MagnetIdentity(hash: seq<Byte>, before: seq<string>, urn: string, value: string, rest: seq<string>, r: Request,
          sha1: string -> string)
    requires |hash| == 20 && Lower(urn) == "urn:btih:" && Spells(value, hash)
    requires NoUploadHash(r, sha1) && NoneBtih(before) && r.xts == before + ([urn + value] + rest)
    ensures IdentityOf(r, sha1) == HexEncode(hash)
  {
    var xt := urn + value;
    BtihBehind(before, [xt] + rest, Trim(r.infoHash));
    assert ([xt] + rest)[0] == xt;
    assert Lower(xt)[..|BTIH|] == Lower(urn);
    assert xt[|BTIH|..] == value;
    CanonicalExactly(value, hash);
  }

  /** So has a bare info hash, whatever spaces surround it, when no urn:btih parameter takes its place. */
  lemma BareIdentity(hash: seq<Byte>, r: Request, sha1: string -> string)
    requires |hash| == 20 && Spells(Trim(r.infoHash), hash)
    requires NoUploadHash(r, sha1) && NoneBtih(r.xts)
    ensures IdentityOf(r, sha1) == HexEncode(hash)
  {
    assert r.xts + [] == r.xts;
    BtihBehind(r.xts, [], Trim(r.infoHash));
    CanonicalExactly(Trim(r.infoHash), hash);
  }

  /**
    A torrent file: a dictionary that holds this info value under its first info key, with any
    entries before it and anything behind it, even malformed bytes.
   */
  ghost predicate HoldsInfo(upload: string, info: Bencode.Node, before: Bencode.Entries, prefix: string,
          after: string) {
    && Bencode.WfEntries(before) && Bencode.NoInfoKey(before) && Bencode.WfString(prefix, "info") && Bencode.Wf(info)
    && upload == Bencode.BeforeInfo(before, prefix) + (Bencode.Encode(info) + after)
  }

  /** A torrent file has the hash of its info bytes as its identity, whatever the URL and the info hash field hold. */
  lemma UploadIdentity(r: Request, info: Bencode.Node, before: Bencode.Entries, prefix: string, after: string,
          sha1: string -> string)
    requires HoldsInfo(r.upload, info, before, prefix, after)
    ensures IdentityOf(r, sha1) == sha1(Bencode.Encode(info))
  {
    Bencode.InfoHashStable(before, prefix, after, before, prefix, after, info, sha1);
    HeldIsRead(r.upload, info, before, prefix, after);
  }

  lemma HeldIsRead(upload: string, info: Bencode.Node, before: Bencode.Entries, prefix: string, after: string)
    requires HoldsInfo(upload, info, before, prefix, after)
    ensures upload != "" && Bencode.InfoSpan(upload).Span?
  {
    Bencode.InfoSpanExact(before, prefix, info, after);
  }

  lemma ReadIsHeld(upload: string) returns (info: Bencode.Node, before: Bencode.Entries, prefix: string, after: string)
    requires Bencode.InfoSpan(upload).Span?
    ensures HoldsInfo(upload, info, before, prefix, after)
  {
    before, prefix, info := Bencode.InfoSpanSound(upload);
    var Span(start, end) := Bencode.InfoSpan(upload);
    after := upload[end..];
    ThreeParts(upload, start, end);
  }

  lemma ThreeParts(s: string, a: nat, b: nat)
    requires a <= b <= |s|
    ensures s == s[..a] + (s[a..b] + s[b..])
  {}

  /** An upload a hash can be read from is such a torrent file, and every such torrent file is read. */
  lemma UploadReadExactly(r: Request, sha1: string -> string)
    ensures NoUploadHash(r, sha1) <==>
      forall info, before, prefix, after :: !HoldsInfo(r.upload, info, before, prefix, after)
  {
    if !NoUploadHash(r, sha1) {
      var info, before, prefix, after := ReadIsHeld(r.upload);
    } else {
      forall info, before, prefix, after ensures !HoldsInfo(r.upload, info, before, prefix, after) {
        if HoldsInfo(r.upload, info, before, prefix, after) { HeldIsRead(r.upload, info, before, prefix, after); }
      }
    }
  }

  // ---- request and scope keys ----

  const NUL: string := [0 as char]

  function Payload(identity: string, r: Request, hash: string -> string): string {
    if identity == "" then hash(r.releaseUrl + NUL + r.upload) else identity
  }

  function RequestKey(client: string, endpointHash: string, payload: string, hash: string -> string): string {
    hash(client + NUL + endpointHash + NUL + payload)
  }

  function ScopeKey(requestKey: string, wantedId: string, hash: string -> string): string {
    if wantedId == "" then hash("release:" + requestKey) else hash("wanted:" + wantedId)
  }

  predicate NoNul(s: string) {
    forall k :: 0 <= k < |s| ==> s[k] != 0 as char
  }

  ghost predicate Injective(hash: string -> string) {
    forall a, b {:trigger hash(a), hash(b)} :: hash(a) == hash(b) ==> a == b
  }

  lemma NulSeparated(a: string, b: string, x: string, y: string)
    requires NoNul(a) && NoNul(x) && a + NUL + b == x + NUL + y
    ensures a == x && b == y
  {
    var s := a + NUL + b;
    assert s[|a|] == 0 as char && s[|x|] == 0 as char;
    assert forall k :: 0 <= k < |a| ==> s[k] == a[k];
    assert forall k :: 0 <= k < |x| ==> s[k] == x[k];
    assert |a| == |x|;
    assert s[..|a|] == a && s[..|x|] == x;
    assert s[|a| + 1..] == b && s[|x| + 1..] == y;
  }

  /** Two requests share a request key exactly when client, endpoint and payload all agree. */
  lemma RequestKeyExactly(c1: string, e1: string, p1: string, c2: string, e2: string, p2: string,
          hash: string -> string)
    requires Injective(hash) && NoNul(c1) && NoNul(c2) && NoNul(e1) && NoNul(e2)
    ensures RequestKey(c1, e1, p1, hash) == RequestKey(c2, e2, p2, hash) <==> c1 == c2 && e1 == e2 && p1 == p2
  {
    if RequestKey(c1, e1, p1, hash) == RequestKey(c2, e2, p2, hash) {
      assert c1 + NUL + e1 + NUL + p1 == c1 + NUL + (e1 + NUL + p1);
      assert c2 + NUL + e2 + NUL + p2 == c2 + NUL + (e2 + NUL + p2);
      NulSeparated(c1, e1 + NUL + p1, c2, e2 + NUL + p2);
      NulSeparated(e1, p1, e2, p2);
    }
  }

  /** One book, one scope; without a book the scope is the release, and the two kinds never meet. */
  lemma ScopeKeyExactly(k1: string, w1: string, k2: string, w2: string, hash: string -> string)
    requires Injective(hash)
    ensures ScopeKey(k1, w1, hash) == ScopeKey(k2, w2, hash) <==> w1 == w2 && (w1 == "" ==> k1 == k2)
  {
    var release, wanted := "release:", "wanted:";
    assert release[0] == 'r' && wanted[0] == 'w';
    if ScopeKey(k1, w1, hash) == ScopeKey(k2, w2, hash) {
      var s1 := if w1 == "" then release + k1 else wanted + w1;
      var s2 := if w2 == "" then release + k2 else wanted + w2;
      assert s1 == s2 && s1[0] == s2[0];
      if w1 == "" { assert s1[|release|..] == k1 && s2[|release|..] == k2; }
      else { assert s1[|wanted|..] == w1 && s2[|wanted|..] == w2; }
    }
  }

  /**
    Any two spellings of one hash, from any request shape, give one request key per client
    endpoint; other hashes give others.
   */
  lemma SameHashSameKey(client: string, endpointHash: string, v1: string, h1: seq<Byte>, v2: string, h2: seq<Byte>,
          hash: string -> string)
    requires |h1| == 20 && |h2| == 20 && Spells(v1, h1) && Spells(v2, h2)
    requires Injective(hash) && NoNul(client) && NoNul(endpointHash)
    ensures var k1, k2 := RequestKey(client, endpointHash, Canonical(v1), hash),
                RequestKey(client, endpointHash, Canonical(v2), hash);
      k1 == k2 <==> h1 == h2
  {
    DistinctHashesDistinctIdentities(v1, h1, v2, h2);
    RequestKeyExactly(client, endpointHash, Canonical(v1), client, endpointHash, Canonical(v2), hash);
  }

  /** The request key of a whole download request. */
  function KeyOf(client: string, endpointHash: string, r: Request, sha1: string -> string,
          hash: string -> string): string {
    RequestKey(client, endpointHash, Payload(IdentityOf(r, sha1), r, hash), hash)
  }

  lemma CanonicalLength(value: string)
    ensures Canonical(value) == "" || |Canonical(value)| == 40
  {
    if Canonical(value) != "" { IdentityIsAHash(value); }
  }

  /** An identity is empty or as long as a SHA-1 in hex. */
  lemma IdentityLength(r: Request, sha1: string -> string)
    requires forall x :: |sha1(x)| == 40
    ensures IdentityOf(r, sha1) == "" || |IdentityOf(r, sha1)| == 40
  {
    var uploaded := Bencode.InfoHash(r.upload, sha1);
    if r.upload != "" && uploaded.Some? {
      assert |uploaded.value| == 40;
    } else {
      CanonicalLength(ChosenValue(r));
    }
  }

  lemma PayloadExactly(i1: string, r1: Request, i2: string, r2: Request, hash: string -> string)
    requires Injective(hash) && (forall x :: |hash(x)| != 40) && NoNul(r1.releaseUrl) && NoNul(r2.releaseUrl)
    requires (i1 == "" || |i1| == 40) && (i2 == "" || |i2| == 40)
    ensures Payload(i1, r1, hash) == Payload(i2, r2, hash)
      <==> i1 == i2 && (i1 == "" ==> r1.releaseUrl == r2.releaseUrl && r1.upload == r2.upload)
  {
    if i1 == "" && i2 == "" && Payload(i1, r1, hash) == Payload(i2, r2, hash) {
      NulSeparated(r1.releaseUrl, r1.upload, r2.releaseUrl, r2.upload);
    }
  }

  /**
    Whole requests share a request key exactly when they ask the same client endpoint for the
    same identity or, having none, for the same URL and upload. An identity has forty digits,
    and no output of the key hash is that long, so the two kinds never meet.
   */
  lemma WholeRequestKeyExactly(c1: string, e1: string, r1: Request, c2: string, e2: string, r2: Request,
          sha1: string -> string, hash: string -> string)
    requires Injective(hash) && NoNul(c1) && NoNul(c2) && NoNul(e1) && NoNul(e2)
    requires NoNul(r1.releaseUrl) && NoNul(r2.releaseUrl)
    requires forall x :: |sha1(x)| == 40 && |hash(x)| != 40
    ensures KeyOf(c1, e1, r1, sha1, hash) == KeyOf(c2, e2, r2, sha1, hash)
      <==> c1 == c2 && e1 == e2 && IdentityOf(r1, sha1) == IdentityOf(r2, sha1)
           && (IdentityOf(r1, sha1) == "" ==> r1.releaseUrl == r2.releaseUrl && r1.upload == r2.upload)
  {
    var i1, i2 := IdentityOf(r1, sha1), IdentityOf(r2, sha1);
    IdentityLength(r1, sha1);
    IdentityLength(r2, sha1);
    RequestKeyExactly(c1, e1, Payload(i1, r1, hash), c2, e2, Payload(i2, r2, hash), hash);
    PayloadExactly(i1, r1, i2, r2, hash);
  }

  /**
    A magnet link, its urn:btih parameter wherever it stands, and a bare info hash, however
    spelled, ask one client endpoint for the same thing exactly when they name the same hash.
   */
  lemma MagnetAndBareShareTheirKey(client: string, endpointHash: string, h1: seq<Byte>, before: seq<string>,
          urn: string, v1: string, rest: seq<string>, magnet: Request, h2: seq<Byte>, bare: Request,
          sha1: string -> string, hash: string -> string)
    requires |h1| == 20 && |h2| == 20 && Injective(hash) && NoNul(client) && NoNul(endpointHash)
    requires Lower(urn) == "urn:btih:" && Spells(v1, h1) && NoneBtih(before)
    requires NoUploadHash(magnet, sha1) && magnet.xts == before + ([urn + v1] + rest)
    requires Spells(Trim(bare.infoHash), h2) && NoUploadHash(bare, sha1) && NoneBtih(bare.xts)
    ensures KeyOf(client, endpointHash, magnet, sha1, hash) == KeyOf(client, endpointHash, bare, sha1, hash) <==>
        h1 == h2
  {
    MagnetIdentity(h1, before, urn, v1, rest, magnet, sha1);
    BareIdentity(h2, bare, sha1);
    RequestKeyExactly(client, endpointHash, HexEncode(h1), client, endpointHash, HexEncode(h2), hash);
    if HexEncode(h1) == HexEncode(h2) { HexInjective(h1, h2); }
  }

  /** So do a torrent file and a magnet link, exactly when the file's info bytes have the magnet's hash. */
  lemma UploadAndMagnetShareTheirKey(client: string, endpointHash: string, info: Bencode.Node,
          entries: Bencode.Entries, prefix: string, after: string, file: Request, hash: seq<Byte>, before: seq<string>,
          urn: string, value: string, rest: seq<string>, magnet: Request, sha1: string -> string,
          keyHash: string -> string)
    requires |hash| == 20 && Injective(keyHash) && NoNul(client) && NoNul(endpointHash)
    requires HoldsInfo(file.upload, info, entries, prefix, after) && sha1(Bencode.Encode(info)) != ""
    requires Lower(urn) == "urn:btih:" && Spells(value, hash) && NoneBtih(before)
    requires NoUploadHash(magnet, sha1) && magnet.xts == before + ([urn + value] + rest)
    ensures KeyOf(client, endpointHash, file, sha1, keyHash) == KeyOf(client, endpointHash, magnet, sha1, keyHash)
      <==> sha1(Bencode.Encode(info)) == HexEncode(hash)
  {
    UploadIdentity(file, info, entries, prefix, after, sha1);
    MagnetIdentity(hash, before, urn, value, rest, magnet, sha1);
    RequestKeyExactly(client, endpointHash, sha1(Bencode.Encode(info)), client, endpointHash, HexEncode(hash), keyHash);
  }

  /** And two torrent files, exactly when their info bytes have one hash; nothing else in them or beside them counts. */
  lemma UploadsShareTheirKey(client: string, endpointHash: string, i1: Bencode.Node, b1: Bencode.Entries, p1: string,
          a1: string, r1: Request, i2: Bencode.Node, b2: Bencode.Entries, p2: string, a2: string, r2: Request,
          sha1: string -> string, keyHash: string -> string)
    requires HoldsInfo(r1.upload, i1, b1, p1, a1) && HoldsInfo(r2.upload, i2, b2, p2, a2)
    requires Injective(keyHash) && NoNul(client) && NoNul(endpointHash) && forall x :: sha1(x) != ""
    ensures KeyOf(client, endpointHash, r1, sha1, keyHash) == KeyOf(client, endpointHash, r2, sha1, keyHash)
      <==> sha1(Bencode.Encode(i1)) == sha1(Bencode.Encode(i2))
  {
    UploadIdentity(r1, i1, b1, p1, a1, sha1);
    UploadIdentity(r2, i2, b2, p2, a2, sha1);
    RequestKeyExactly(client, endpointHash, sha1(Bencode.Encode(i1)), client, endpointHash, sha1(Bencode.Encode(i2)),
      keyHash);
  }

  // ---- the wanted tag of acquisitionCandidate ----

  predicate HexRun(s: string, from: nat, to: nat) {
    to <= |s| && forall k :: from <= k < to ==> IsHex(s[k])
  }

  /** 8-4-4-4-12 hexadecimal digits. */
  predicate IsUuid(s: string) {
    && |s| == 36 && s[8] == '-' && s[13] == '-' && s[18] == '-' && s[23] == '-'
    && HexRun(s, 0, 8) && HexRun(s, 9, 13) && HexRun(s, 14, 18) && HexRun(s, 19, 23) && HexRun(s, 24, 36)
  }

  /** Thirty-six characters: dashes at four places and hexadecimal digits at all others. */
  lemma UuidExactly(s: string)
    ensures IsUuid(s) <==>
      |s| == 36 && forall n :: 0 <= n < 36 ==>
        if n == 8 || n == 13 || n == 18 || n == 23 then s[n] == '-'
        else '0' <= s[n] <= '9' || 'a' <= s[n] <= 'f' || 'A' <= s[n] <= 'F'
  {}

  datatype TaggedBook = Book(id: string) | BadTag | SeveralBooks

  const WANTED: string := "wanted:"

  predicate IsWantedTag(tag: string) { HasPrefix(tag, WANTED) }

  function TagId(tag: string): string
    requires IsWantedTag(tag)
  {
    Lower(tag[|WANTED|..])
  }

  /** Every wanted tag names a book id, and they all name the same one. */
  ghost predicate TagsName(tags: seq<string>, id: string) {
    && (forall k :: 0 <= k < |tags| && IsWantedTag(tags[k]) ==> IsUuid(tags[k][|WANTED|..]) && TagId(tags[k]) == id)
    && (id == "" || exists k :: 0 <= k < |tags| && IsWantedTag(tags[k]))
  }

  /** A request targets a book exactly when all of its wanted tags name that one book; otherwise it is refused. */
  method WantedFromTags(tags: seq<string>) returns (r: TaggedBook)
    ensures forall id :: r == Book(id) <==> TagsName(tags, id)
    ensures forall id :: r == Book(id) <==>
      && (forall k :: 0 <= k < |tags| && HasPrefix(tags[k], "wanted:") ==>
            IsUuid(tags[k][7..]) && Lower(tags[k][7..]) == id)
      && (id == "" || exists k :: 0 <= k < |tags| && HasPrefix(tags[k], "wanted:"))
    ensures r.BadTag? ==> exists k :: 0 <= k < |tags| && IsWantedTag(tags[k]) && !IsUuid(tags[k][|WANTED|..])
    ensures r.SeveralBooks? ==>
        exists j, k :: 0 <= j < k < |tags| && IsWantedTag(tags[j]) && IsWantedTag(tags[k])
            && TagId(tags[j]) != TagId(tags[k])
  {
    var wanted := "";
    for n := 0 to |tags|
      invariant forall k :: 0 <= k < n && IsWantedTag(tags[k]) ==>
          IsUuid(tags[k][|WANTED|..]) && TagId(tags[k]) == wanted
      invariant wanted != "" ==> exists k :: 0 <= k < n && IsWantedTag(tags[k])
    {
      var tag := tags[n];
      if IsWantedTag(tag) {
        var id := tag[|WANTED|..];
        if !IsUuid(id) {
          return BadTag;
        }
        id := Lower(id);
        if wanted != "" && wanted != id {
          return SeveralBooks;
        }
        wanted := id;
      }
    }
    return Book(wanted);
  }

  // ---- acceptedClientIdentity ----

  /** A torrent client must return a real info hash; SABnzbd any non-blank job id. */
  predicate AcceptedIdentity(client: string, id: string) {
    if client == "qBittorrent" || client == "Transmission" then Canonical(Trim(id)) != ""
    else client == "SABnzbd" && Trim(id) != ""
  }

  lemma SpelledHash(v: string)
    requires Canonical(v) != ""
    ensures exists hash: seq<Byte> :: |hash| == 20 && Spells(v, hash)
  {
    CanonicalShape(v);
    IdentityIsAHash(v);
    var hash := HexDecode(Canonical(v));
    assert |hash| == 20;
  }

  lemma CanonicalShape(v: string)
    requires Canonical(v) != ""
    ensures |Canonical(v)| == 40 && AllHex(Canonical(v))
  {}

  lemma SpelledHasIdentity(v: string, hash: seq<Byte>)
    requires |hash| == 20 && Spells(v, hash)
    ensures Canonical(v) != ""
  {
    CanonicalExactly(v, hash);
    assert |HexEncode(hash)| == 40;
  }

  lemma CanonicalSome(v: string)
    ensures Canonical(v) != "" <==> exists hash: seq<Byte> :: |hash| == 20 && Spells(v, hash)
  {
    if Canonical(v) != "" { SpelledHash(v); }
    forall hash: seq<Byte> | |hash| == 20 && Spells(v, hash) ensures Canonical(v) != "" {
      SpelledHasIdentity(v, hash);
    }
  }

  /**
    A torrent client's id is accepted exactly when, without outer spaces, it spells a 20-byte hash;
    SABnzbd's exactly when it is not all spaces; any other client's never.
   */
  lemma AcceptedIdentityExactly(client: string, id: string)
    ensures client == "qBittorrent" || client == "Transmission" ==>
      (AcceptedIdentity(client, id) <==>
       exists hash: seq<Byte> ::
         |hash| == 20 && (Upper(Trim(id)) == Base32Encode(hash) || Lower(Trim(id)) == HexEncode(hash)))
    ensures client == "SABnzbd" ==>
      (AcceptedIdentity(client, id) <==> exists n :: 0 <= n < |id| && !(id[n] == ' ' || '\t' <= id[n] <= '\r'))
    ensures client != "qBittorrent" && client != "Transmission" && client != "SABnzbd" ==> !AcceptedIdentity(client, id)
  {
    BlankExactly(id);
    CanonicalSome(Trim(id));
  }
}
