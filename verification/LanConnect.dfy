/**
 Which addresses a connection tries (src/lan.rs) and the loop that tries them (src/client.rs).
 Endpoint and IP parsing belong to libraries that are not part of this model and are parameters, as are
 the stored records and the outcome of every connection attempt.
 */
module LanConnect {
  import opened Common
  import opened Lists
  import opened LanDiscovery

  datatype Endpoint = Endpoint(authority: string, host: string, port: nat)
  datatype IpAddr = V4(text: string) | V6(text: string)
  datatype Library = Library(
    parse: string -> Option<Endpoint>, parseIp: string -> Option<IpAddr>, defaultPort: nat)

  datatype Recent = Recent(endpoint: string, fingerprint: string)

  /** What the client knows when it asks for candidates. */
  datatype Records = Records(recent: seq<Recent>, peers: seq<Peer>)

  // ---------------------------------------------------------------------------
  // Candidates
  // ---------------------------------------------------------------------------

  function Decimal(n: nat): (s: string)
    ensures s != ""
  {
    var digit := [('0' as int + n % 10) as char];
    if n < 10 then digit else Decimal(n / 10) + digit
  }

  /** The number a string of digits stands for. */
  function ValueOf(s: string): int {
    if s == "" then 0 else ValueOf(s[..|s| - 1]) * 10 + (s[|s| - 1] as int - '0' as int)
  }

  /** `s` is how `n` is written: digits, without a leading zero unless it is the only digit. */
  ghost predicate Writes(s: string, n: nat) {
    && s != "" && (forall i :: 0 <= i < |s| ==> '0' <= s[i] <= '9')
    && (s[0] == '0' ==> |s| == 1) && ValueOf(s) == n
  }

  lemma {:induction false} DecimalWrites(n: nat)
    ensures Writes(Decimal(n), n) && (n > 0 ==> Decimal(n)[0] != '0')
    decreases n
  {
    var s := Decimal(n);
    if n >= 10 {
      DecimalWrites(n / 10);
      assert s[..|s| - 1] == Decimal(n / 10);
    } else {
      assert s[..|s| - 1] == "" && ValueOf("") == 0;
    }
  }

  lemma {:induction false} ValueIsPositive(s: string)
    requires s != "" && s[0] != '0' && forall i :: 0 <= i < |s| ==> '0' <= s[i] <= '9'
    ensures ValueOf(s) > 0
    decreases |s|
  {
    if |s| > 1 {
      ValueIsPositive(s[..|s| - 1]);
    } else {
      assert ValueOf(s[..0]) == 0;
    }
  }

  /** A number is written in one way only. */
  lemma {:induction false} WritesIsDecimal(s: string, n: nat)
    requires Writes(s, n)
    ensures s == Decimal(n)
    decreases |s|
  {
    var front, last := s[..|s| - 1], s[|s| - 1] as int - '0' as int;
    if |s| > 1 {
      ValueIsPositive(front);
      assert n / 10 == ValueOf(front) && n % 10 == last;
      WritesIsDecimal(front, n / 10);
      assert s == front + [s[|s| - 1]];
    } else {
      assert ValueOf(front) == 0;
      assert s == [s[0]];
    }
  }

  /** Host and port, with IPv6 hosts in brackets (section 3.2.2 of RFC 3986). */
  function Authority(address: IpAddr, port: nat): (r: string)
    ensures r != ""
  {
    match address
    case V4(text) => text + ":" + Decimal(port)
    case V6(text) => "[" + text + "]:" + Decimal(port)
  }

  predicate IsHexDigit(c: char) {
    '0' <= c <= '9' || 'a' <= c <= 'f' || 'A' <= c <= 'F'
  }

  predicate IsFingerprint(s: string) {
    |s| == 64 && forall i :: 0 <= i < |s| ==> IsHexDigit(s[i])
  }

  function HexDigit(n: int): char
    requires 0 <= n < 16
  {
    "0123456789abcdef"[n]
  }

  /** Two hexadecimal digits for each byte. */
  function Hex(bytes: seq<Byte>): (s: string)
    ensures |s| == 2 * |bytes|
    ensures forall i :: 0 <= i < |bytes| ==>
              s[2 * i] == HexDigit(bytes[i] as int / 16) && s[2 * i + 1] == HexDigit(bytes[i] as int % 16)
  {
    if bytes == [] then ""
    else
      var n := |bytes| - 1;
      Hex(bytes[..n]) + [HexDigit(bytes[n] as int / 16), HexDigit(bytes[n] as int % 16)]
  }

  lemma HexDigitIs(n: nat)
    requires n < 16
    ensures HexDigit(n) == if n < 10 then ('0' as int + n) as char else ('a' as int + n - 10) as char
  {
  }

  lemma HexDigitOf(c: char) returns (n: nat)
    requires IsHexDigit(c)
    ensures n < 16 && SameLetter(c, HexDigit(n))
  {
    n := if c <= '9' then c as int - '0' as int
    else if c <= 'F' then c as int - 'A' as int + 10 else c as int - 'a' as int + 10;
    assert HexDigit(n) == if n < 10 then ('0' as int + n) as char else ('a' as int + n - 10) as char by {
      HexDigitIs(n);
    }
  }

  lemma ByteOf(c: char, d: char) returns (b: Byte)
    requires IsHexDigit(c) && IsHexDigit(d)
    ensures SameLetter(c, HexDigit(b as int / 16)) && SameLetter(d, HexDigit(b as int % 16))
  {
    var hi := HexDigitOf(c);
    var lo := HexDigitOf(d);
    b := (16 * hi + lo) as Byte;
  }

  lemma HexOneMore(front: seq<Byte>, b: Byte)
    ensures Hex(front + [b]) == Hex(front) + [HexDigit(b as int / 16), HexDigit(b as int % 16)]
  {
    assert (front + [b])[..|front|] == front;
  }

  lemma EqualConcat(a: string, b: string, c: string, d: string)
    requires EqualIgnoringCase(a, b) && EqualIgnoringCase(c, d)
    ensures EqualIgnoringCase(a + c, b + d)
  {
  }

  lemma {:induction false} BytesOf(s: string, n: nat) returns (bytes: seq<Byte>)
    requires |s| == 2 * n && forall i :: 0 <= i < |s| ==> IsHexDigit(s[i])
    ensures |bytes| == n && EqualIgnoringCase(s, Hex(bytes))
    decreases n
  {
    bytes := [];
    if n > 0 {
      var front := BytesOf(s[..2 * n - 2], n - 1);
      var b := ByteOf(s[2 * n - 2], s[2 * n - 1]);
      bytes := front + [b];
      HexOneMore(front, b);
      var pair := [HexDigit(b as int / 16), HexDigit(b as int % 16)];
      EqualConcat(s[..2 * n - 2], Hex(front), s[2 * n - 2..], pair);
      assert s == s[..2 * n - 2] + s[2 * n - 2..];
    }
  }

  lemma SameLetterIsHex(c: char, n: nat)
    requires n < 16 && SameLetter(c, HexDigit(n))
    ensures IsHexDigit(c)
  {
    HexDigitIs(n);
  }

  lemma HexIsFingerprint(s: string, bytes: seq<Byte>, i: nat)
    requires EqualIgnoringCase(s, Hex(bytes)) && i < |s|
    ensures IsHexDigit(s[i])
  {
    var h, b := i / 2, bytes[i / 2] as int;
    assert SameLetter(s[i], Hex(bytes)[i]);
    if i == 2 * h {
      SameLetterIsHex(s[i], b / 16);
    } else {
      assert i == 2 * h + 1;
      SameLetterIsHex(s[i], b % 16);
    }
  }

  /** A fingerprint is well-formed exactly if it writes 32 bytes in hexadecimal, in either case. */
  lemma FingerprintIff(s: string)
    ensures IsFingerprint(s) <==> exists bytes :: |bytes| == 32 && EqualIgnoringCase(s, Hex(bytes))
  {
    if IsFingerprint(s) {
      var bytes := BytesOf(s, 32);
    } else if bytes :| |bytes| == 32 && EqualIgnoringCase(s, Hex(bytes)) {
      forall i | 0 <= i < |s| ensures IsHexDigit(s[i]) {
        HexIsFingerprint(s, bytes, i);
      }
    }
  }

  predicate SameFingerprint(a: string, b: string) { Lower(a) == Lower(b) }

  /** The peer's endpoint, or one of its addresses, is what the user asked for. */
  predicate Names(lib: Library, p: Peer, requested: string) {
    p.endpoint == requested
    || (lib.parse(requested).Some? && lib.parse(requested).value.host in p.ipMac)
  }

  function FirstRecent(recent: seq<Recent>, requested: string): (i: nat)
    ensures i <= |recent| && (i < |recent| ==> recent[i].endpoint == requested)
    ensures forall j :: 0 <= j < i ==> recent[j].endpoint != requested
  {
    if recent == [] || recent[0].endpoint == requested then 0 else 1 + FirstRecent(recent[1..], requested)
  }

  function FirstPeer(lib: Library, peers: seq<Peer>, requested: string): (i: nat)
    ensures i <= |peers| && (i < |peers| ==> Names(lib, peers[i], requested))
    ensures forall j :: 0 <= j < i ==> !Names(lib, peers[j], requested)
  {
    if peers == [] || Names(lib, peers[0], requested) then 0 else 1 + FirstPeer(lib, peers[1..], requested)
  }

  /** `raw` is the fingerprint of the first recent endpoint or, without one, the first peer that was asked for. */
  ghost predicate Designates(lib: Library, requested: string, known: Records, raw: string) {
    || (exists i :: 0 <= i < |known.recent| && known.recent[i] == Recent(requested, raw)
                    && forall j :: 0 <= j < i ==> known.recent[j].endpoint != requested)
    || ((forall j :: 0 <= j < |known.recent| ==> known.recent[j].endpoint != requested)
        && exists i :: 0 <= i < |known.peers| && Names(lib, known.peers[i], requested)
                       && known.peers[i].fingerprint == raw
                       && forall j :: 0 <= j < i ==> !Names(lib, known.peers[j], requested))
  }

  function FirstDesignated(lib: Library, requested: string, known: Records): Option<string> {
    var i, j := FirstRecent(known.recent, requested), FirstPeer(lib, known.peers, requested);
    if i < |known.recent| then Some(known.recent[i].fingerprint)
    else if j < |known.peers| then Some(known.peers[j].fingerprint)
    else None
  }

  lemma DesignatesIff(lib: Library, requested: string, known: Records, raw: string)
    ensures Designates(lib, requested, known, raw) <==> FirstDesignated(lib, requested, known) == Some(raw)
  {
    var i, j := FirstRecent(known.recent, requested), FirstPeer(lib, known.peers, requested);
    if i < |known.recent| {
      assert known.recent[i] == Recent(requested, known.recent[i].fingerprint);
    }
  }

  /** Lower-casing first and then checking the form is the same as checking the form first. */
  function WellFormed(raw: string): (fp: Option<string>)
    ensures fp == if IsFingerprint(raw) then Some(Lower(raw)) else None
  {
    assert forall i :: 0 <= i < |raw| ==> IsHexDigit(LowerChar(raw[i])) == IsHexDigit(raw[i]);
    if IsFingerprint(Lower(raw)) then Some(Lower(raw)) else None
  }

  /** The identity of the device the user means; an ill-formed one counts as unknown. */
  function Resolve(lib: Library, requested: string, known: Records): (fp: Option<string>)
    ensures forall raw :: Designates(lib, requested, known, raw) ==>
                            fp == if IsFingerprint(raw) then Some(Lower(raw)) else None
    ensures fp.Some? ==> exists raw :: Designates(lib, requested, known, raw)
  {
    match FirstDesignated(lib, requested, known)
    case Some(raw) =>
      assert Designates(lib, requested, known, raw);
      WellFormed(raw)
    case None => None
  }

  function PortOf(lib: Library, p: Peer): nat {
    match lib.parse(p.endpoint) case Some(e) => e.port case None => lib.defaultPort
  }

  predicate FromRecent(recent: seq<Recent>, fp: string, x: string) {
    exists r :: r in recent && SameFingerprint(r.fingerprint, fp) && x == r.endpoint
  }

  predicate FromAddresses(lib: Library, addresses: set<string>, port: nat, x: string) {
    exists a :: a in addresses && lib.parseIp(a).Some? && x == Authority(lib.parseIp(a).value, port)
  }

  predicate FromPeer(lib: Library, p: Peer, x: string) {
    x == p.endpoint || FromAddresses(lib, p.ipMac.Keys, PortOf(lib, p), x)
  }

  predicate FromPeers(lib: Library, peers: seq<Peer>, fp: string, x: string) {
    exists p :: p in peers && SameFingerprint(p.fingerprint, fp) && FromPeer(lib, p, x)
  }

  /** The requested authority, and the endpoints and IP addresses of records with the resolved identity. */
  predicate IsCandidate(lib: Library, requested: string, fp: Option<string>, known: Records, x: string) {
    x != "" &&
    (x == requested || (fp.Some? && (FromRecent(known.recent, fp.value, x) || FromPeers(lib, known.peers, fp.value, x))))
  }

  /** `p` is a record of the resolved device. */
  ghost predicate OfDevice(p: Peer, fp: string) { EqualIgnoringCase(p.fingerprint, fp) }

  /**
   Every IP address of a record of the device is a candidate: written with the port of the record's endpoint, or with
   the default port if that endpoint does not parse, and in brackets if it is an IPv6 address.
   */
  lemma AddressIsCandidate(lib: Library, requested: string, fp: string, known: Records, p: Peer, a: string, port: string)
    requires p in known.peers && OfDevice(p, fp) && a in p.ipMac && lib.parseIp(a).Some?
    requires match lib.parse(p.endpoint)
             case Some(e) => Writes(port, e.port)
             case None => Writes(port, lib.defaultPort)
    ensures match lib.parseIp(a).value
            case V4(text) => IsCandidate(lib, requested, Some(fp), known, text + ":" + port)
            case V6(text) => IsCandidate(lib, requested, Some(fp), known, "[" + text + "]:" + port)
  {
    WritesIsDecimal(port, PortOf(lib, p));
    LowerIgnoresCase(p.fingerprint, fp);
    var x := Authority(lib.parseIp(a).value, PortOf(lib, p));
    assert FromAddresses(lib, p.ipMac.Keys, PortOf(lib, p), x) && FromPeer(lib, p, x);
    assert FromPeers(lib, known.peers, fp, x);
  }

  /** Endpoints on record of the device are candidates, too. */
  lemma EndpointIsCandidate(lib: Library, requested: string, fp: string, known: Records, x: string)
    requires x != ""
    requires (exists i :: 0 <= i < |known.recent| && known.recent[i].endpoint == x
                          && EqualIgnoringCase(known.recent[i].fingerprint, fp))
             || (exists i :: 0 <= i < |known.peers| && known.peers[i].endpoint == x && OfDevice(known.peers[i], fp))
    ensures IsCandidate(lib, requested, Some(fp), known, x)
  {
    if i :| 0 <= i < |known.recent| && known.recent[i].endpoint == x
            && EqualIgnoringCase(known.recent[i].fingerprint, fp)
    {
      LowerIgnoresCase(known.recent[i].fingerprint, fp);
      assert FromRecent(known.recent, fp, x);
    } else {
      var i :| 0 <= i < |known.peers| && known.peers[i].endpoint == x && OfDevice(known.peers[i], fp);
      LowerIgnoresCase(known.peers[i].fingerprint, fp);
      assert FromPeer(lib, known.peers[i], x) && FromPeers(lib, known.peers, fp, x);
    }
  }

  /** No record of another device contributes a candidate. */
  lemma OtherDevicesGiveNone(lib: Library, requested: string, fp: string, known: Records, x: string)
    requires forall i :: 0 <= i < |known.recent| ==> !EqualIgnoringCase(known.recent[i].fingerprint, fp)
    requires forall i :: 0 <= i < |known.peers| ==> !OfDevice(known.peers[i], fp)
    ensures IsCandidate(lib, requested, Some(fp), known, x) ==> x == requested
  {
    forall i | 0 <= i < |known.recent| ensures !SameFingerprint(known.recent[i].fingerprint, fp) {
      LowerIgnoresCase(known.recent[i].fingerprint, fp);
    }
    forall i | 0 <= i < |known.peers| ensures !SameFingerprint(known.peers[i].fingerprint, fp) {
      LowerIgnoresCase(known.peers[i].fingerprint, fp);
    }
  }

  /** A device asked for by its endpoint or by one of its addresses is found, if no recent connection knows better. */
  lemma FoundByDiscovery(lib: Library, requested: string, known: Records, i: nat, host: string)
    requires i < |known.peers| && forall j :: 0 <= j < |known.recent| ==> known.recent[j].endpoint != requested
    requires lib.parse(requested).Some? && lib.parse(requested).value.host == host
    requires known.peers[i].endpoint == requested || host in known.peers[i].ipMac
    requires forall j :: 0 <= j < i ==> known.peers[j].endpoint != requested && host !in known.peers[j].ipMac
    requires IsFingerprint(known.peers[i].fingerprint)
    ensures Resolve(lib, requested, known) == Some(Lower(known.peers[i].fingerprint))
  {
    assert Designates(lib, requested, known, known.peers[i].fingerprint);
  }

  method PushUnique(values: seq<string>, value: string) returns (values': seq<string>)
    requires NoDuplicates(values)
    ensures NoDuplicates(values') && values <= values'
    ensures values' == if value == "" then values else Extend(values, [value])
    ensures forall x :: x in values' <==> x in values || (x == value && x != "")
  {
    values' := values;
    if value != "" && value !in values {
      values' := values + [value];
    }
  }

  method PushRecent(recent: seq<Recent>, fp: string, values: seq<string>) returns (values': seq<string>)
    requires NoDuplicates(values)
    ensures NoDuplicates(values') && values <= values'
    ensures forall x :: x in values' <==> x in values || (x != "" && FromRecent(recent, fp, x))
  {
    values' := values;
    for i := 0 to |recent|
      invariant NoDuplicates(values') && values <= values'
      invariant forall x :: x in values' <==> x in values || (x != "" && FromRecent(recent[..i], fp, x))
    {
      assert recent[..i + 1] == recent[..i] + [recent[i]];
      if SameFingerprint(recent[i].fingerprint, fp) {
        values' := PushUnique(values', recent[i].endpoint);
      }
    }
    assert recent[..|recent|] == recent;
  }

  /** The order of strings by their characters, as Rust compares them. */
  predicate Less(a: string, b: string) {
    b != "" && (a == "" || a[0] < b[0] || (a[0] == b[0] && Less(a[1..], b[1..])))
  }

  lemma {:induction false} LessIsTotal(a: string, b: string)
    ensures a == b || Less(a, b) || Less(b, a)
    decreases |a|
  {
    if a != "" && b != "" && a[0] == b[0] {
      LessIsTotal(a[1..], b[1..]);
      assert a == [a[0]] + a[1..] && b == [b[0]] + b[1..];
    }
  }

  lemma {:induction false} LessIsTransitive(a: string, b: string, c: string)
    requires Less(a, b) && Less(b, c)
    ensures Less(a, c)
    decreases |a|
  {
    if a != "" && a[0] == b[0] && b[0] == c[0] {
      LessIsTransitive(a[1..], b[1..], c[1..]);
    }
  }

  /** The strings agree up to position `n`, where the first one ends or has the smaller character. */
  ghost predicate DiffersAt(a: string, b: string, n: nat) {
    && n <= |a| && n < |b| && a[..n] == b[..n]
    && (n == |a| || a[n] < b[n])
  }

  /** It is the order of the dictionary. */
  lemma {:induction false} LessIff(a: string, b: string)
    ensures Less(a, b) <==> exists n: nat :: DiffersAt(a, b, n)
    decreases |a|
  {
    forall n: nat | DiffersAt(a, b, n) && n > 0 ensures a[0] == b[0] {
      assert a[..n][0] == b[..n][0];
    }
    if a != "" && b != "" && a[0] == b[0] {
      LessIff(a[1..], b[1..]);
      if n: nat :| DiffersAt(a[1..], b[1..], n) {
        assert a[..n + 1] == [a[0]] + a[1..][..n] && b[..n + 1] == [b[0]] + b[1..][..n];
        assert DiffersAt(a, b, n + 1);
      }
      if n: nat :| DiffersAt(a, b, n) {
        assert n > 0 && a[1..][..n - 1] == a[..n][1..] && b[1..][..n - 1] == b[..n][1..];
        assert DiffersAt(a[1..], b[1..], n - 1);
      }
    } else if Less(a, b) {
      assert DiffersAt(a, b, 0);
    }
  }

  ghost predicate Ascending(s: seq<string>) {
    forall i, j :: 0 <= i < j < |s| ==> Less(s[i], s[j])
  }

  /** `x` belongs at position `k`. */
  lemma InsertAscending(s: seq<string>, k: nat, x: string)
    requires Ascending(s) && k <= |s|
    requires forall i :: 0 <= i < k ==> Less(s[i], x)
    requires k < |s| ==> Less(x, s[k])
    ensures Ascending(s[..k] + [x] + s[k..])
  {
    var t := s[..k] + [x] + s[k..];
    forall i, j | 0 <= i < j < |t| ensures Less(t[i], t[j]) {
      if i == k && j > k + 1 {
        LessIsTransitive(x, s[k], s[j - 1]);
      }
    }
  }

  method InsertSorted(s: seq<string>, x: string) returns (s': seq<string>)
    requires Ascending(s) && x !in s
    ensures Ascending(s') && forall y :: y in s' <==> y in s || y == x
  {
    var k := 0;
    while k < |s| && Less(s[k], x)
      invariant 0 <= k <= |s| && forall i :: 0 <= i < k ==> Less(s[i], x)
    {
      k := k + 1;
    }
    if k < |s| {
      LessIsTotal(s[k], x);
    }
    InsertAscending(s, k, x);
    s' := s[..k] + [x] + s[k..];
    assert s == s[..k] + s[k..];
  }

  /** The addresses of a peer in ascending order, whatever the order of the map. */
  method SortedAddresses(addresses: set<string>) returns (sorted: seq<string>)
    ensures Ascending(sorted) && forall a :: a in sorted <==> a in addresses
  {
    sorted := [];
    var todo := addresses;
    while todo != {}
      invariant todo <= addresses && Ascending(sorted)
      invariant forall a :: a in sorted <==> a in addresses && a !in todo
      decreases todo
    {
      var a :| a in todo;
      todo := todo - {a};
      sorted := InsertSorted(sorted, a);
    }
  }

  function Elements(s: seq<string>): set<string> { set a | a in s }

  /** The authorities of those strings that are IP addresses. */
  function Authorities(lib: Library, addresses: seq<string>, port: nat): seq<string> {
    if addresses == [] then []
    else
      var n := |addresses| - 1;
      var ip := lib.parseIp(addresses[n]);
      Authorities(lib, addresses[..n], port) + if ip.Some? then [Authority(ip.value, port)] else []
  }

  lemma ExtendOne(d: seq<string>, s: seq<string>, x: string)
    ensures Extend(d, s + [x]) == Extend(Extend(d, s), [x])
  {
    ExtendConcat(d, s, [x]);
  }

  lemma AuthoritiesSnoc(lib: Library, addresses: seq<string>, i: nat, port: nat)
    requires i < |addresses|
    ensures lib.parseIp(addresses[i]).None? ==>
              Authorities(lib, addresses[..i + 1], port) == Authorities(lib, addresses[..i], port)
    ensures lib.parseIp(addresses[i]).Some? ==>
              Authorities(lib, addresses[..i + 1], port) ==
              Authorities(lib, addresses[..i], port) + [Authority(lib.parseIp(addresses[i]).value, port)]
  {
    assert addresses[..i + 1][..i] == addresses[..i];
  }

  lemma {:induction false} AuthoritiesAreAddresses(lib: Library, addresses: seq<string>, port: nat, x: string)
    ensures x in Authorities(lib, addresses, port) <==> FromAddresses(lib, Elements(addresses), port, x)
    decreases |addresses|
  {
    if addresses != [] {
      var n := |addresses| - 1;
      AuthoritiesAreAddresses(lib, addresses[..n], port, x);
      assert addresses == addresses[..n] + [addresses[n]];
      assert forall a :: a in Elements(addresses) <==> a in Elements(addresses[..n]) || a == addresses[n];
    }
  }

  /** The loop over the sorted addresses: each new authority goes to the end. */
  method PushAddresses(lib: Library, addresses: seq<string>, port: nat, values: seq<string>) returns (values': seq<string>)
    requires NoDuplicates(values)
    ensures values' == Extend(values, Authorities(lib, addresses, port)) && NoDuplicates(values')
    ensures forall x :: x in values' <==> x in values || FromAddresses(lib, Elements(addresses), port, x)
  {
    values' := values;
    for i := 0 to |addresses|
      invariant NoDuplicates(values') && values' == Extend(values, Authorities(lib, addresses[..i], port))
    {
      AuthoritiesSnoc(lib, addresses, i, port);
      if lib.parseIp(addresses[i]).Some? {
        var x := Authority(lib.parseIp(addresses[i]).value, port);
        ExtendOne(values, Authorities(lib, addresses[..i], port), x);
        values' := PushUnique(values', x);
      }
    }
    assert addresses[..|addresses|] == addresses;
    forall x ensures x in values' <==> x in values || FromAddresses(lib, Elements(addresses), port, x) {
      ExtendIsDistinct(values, Authorities(lib, addresses, port));
      AuthoritiesAreAddresses(lib, addresses, port, x);
    }
  }

  /** One discovered peer: its endpoint, then its addresses in ascending order with the endpoint's port. */
  method PushPeer(lib: Library, p: Peer, values: seq<string>) returns (values': seq<string>, ghost addresses: seq<string>)
    requires NoDuplicates(values)
    ensures NoDuplicates(values') && values <= values'
    ensures forall x :: x in values' <==> x in values || (x != "" && FromPeer(lib, p, x))
    ensures Ascending(addresses) && forall a :: a in addresses <==> a in p.ipMac
    ensures values' == Extend(values, (if p.endpoint == "" then [] else [p.endpoint]) + Authorities(lib, addresses, PortOf(lib, p)))
  {
    values' := PushUnique(values, p.endpoint);
    var sorted := SortedAddresses(p.ipMac.Keys);
    addresses := sorted;
    assert Elements(sorted) == p.ipMac.Keys;
    ExtendConcat(values, if p.endpoint == "" then [] else [p.endpoint], Authorities(lib, addresses, PortOf(lib, p)));
    values' := PushAddresses(lib, sorted, PortOf(lib, p), values');
  }

  method PushPeers(lib: Library, peers: seq<Peer>, fp: string, values: seq<string>) returns (values': seq<string>)
    requires NoDuplicates(values)
    ensures NoDuplicates(values') && values <= values'
    ensures forall x :: x in values' <==> x in values || (x != "" && FromPeers(lib, peers, fp, x))
  {
    values' := values;
    for i := 0 to |peers|
      invariant NoDuplicates(values') && values <= values'
      invariant forall x :: x in values' <==> x in values || (x != "" && FromPeers(lib, peers[..i], fp, x))
    {
      assert peers[..i + 1] == peers[..i] + [peers[i]];
      if SameFingerprint(peers[i].fingerprint, fp) {
        ghost var addresses;
        values', addresses := PushPeer(lib, peers[i], values');
      }
    }
    assert peers[..|peers|] == peers;
  }

  /** `connection_candidates_from`. */
  method ConnectionCandidates(lib: Library, endpoint: string, known: Records)
    returns (fp: Option<string>, candidates: seq<string>)
    ensures NoDuplicates(candidates)
    ensures lib.parse(endpoint).None? ==> fp.None? && candidates == [endpoint]
    ensures lib.parse(endpoint).Some? ==>
              var requested := lib.parse(endpoint).value.authority;
              && fp == Resolve(lib, requested, known)
              && (requested != "" ==> candidates != [] && candidates[0] == requested)
              && (forall x :: x in candidates <==> IsCandidate(lib, requested, fp, known, x))
  {
    var parsed := lib.parse(endpoint);
    if parsed.None? {
      return None, [endpoint];
    }
    var requested := parsed.value.authority;
    fp := Resolve(lib, requested, known);
    candidates := PushUnique([], requested);
    assert requested != "" ==> requested in candidates && candidates[0] in candidates;
    if fp.Some? {
      candidates := PushRecent(known.recent, fp.value, candidates);
      candidates := PushPeers(lib, known.peers, fp.value, candidates);
    }
  }

  // ---------------------------------------------------------------------------
  // The connect loop of Client::start
  // ---------------------------------------------------------------------------

  datatype Outcome = BadEndpoint | ConnectFailed | HandshakeFailed | Connected

  datatype Attempt = Attempt(candidate: string, outcome: Outcome)

  /** The outcome of trying a string as the n-th attempt. */
  type Network = (string, nat) -> Outcome

  function Tried(attempts: seq<Attempt>): (r: seq<string>)
    ensures |r| == |attempts| && forall i :: 0 <= i < |r| ==> r[i] == attempts[i].candidate
  {
    seq(|attempts|, i requires 0 <= i < |attempts| => attempts[i].candidate)
  }

  /** The attempts report what the network did, and only the last one may have connected. */
  ghost predicate Faithful(net: Network, attempts: seq<Attempt>) {
    && (forall i :: 0 <= i < |attempts| ==> attempts[i].outcome == net(attempts[i].candidate, i))
    && (forall i :: 0 <= i < |attempts| - 1 ==> !attempts[i].outcome.Connected?)
  }

  /** Everything tried so far failed. */
  ghost predicate AllFailed(attempts: seq<Attempt>) {
    forall i :: 0 <= i < |attempts| ==> !attempts[i].outcome.Connected?
  }

  ghost predicate Succeeded(attempts: seq<Attempt>, candidate: string) {
    attempts != [] && attempts[|attempts| - 1] == Attempt(candidate, Connected)
  }

  lemma OneMoreAttempt(net: Network, attempts: seq<Attempt>, candidate: string)
    requires Faithful(net, attempts) && AllFailed(attempts)
    ensures var more := attempts + [Attempt(candidate, net(candidate, |attempts|))];
            Faithful(net, more) && Tried(more) == Tried(attempts) + [candidate]
  {
  }

  /** One pass over the candidates, skipping those already attempted. */
  method TryAll(candidates: seq<string>, before: seq<Attempt>, net: Network)
    returns (result: Option<string>, attempts: seq<Attempt>)
    requires Faithful(net, before) && AllFailed(before)
    ensures Faithful(net, attempts) && Tried(attempts) <= Extend(Tried(before), candidates)
    ensures result.None? ==> AllFailed(attempts) && Tried(attempts) == Extend(Tried(before), candidates)
    ensures result.Some? ==> Succeeded(attempts, result.value)
  {
    attempts := before;
    var attempted := set i | 0 <= i < |before| :: before[i].candidate;
    ghost var plan := Extend(Tried(before), candidates);
    assert candidates[0..] == candidates;
    for i := 0 to |candidates|
      invariant Faithful(net, attempts) && AllFailed(attempts)
      invariant forall x :: x in attempted <==> x in Tried(attempts)
      invariant plan == Extend(Tried(attempts), candidates[i..])
    {
      var candidate := candidates[i];
      assert candidates[i..][0] == candidate && candidates[i..][1..] == candidates[i + 1..];
      if candidate !in attempted {
        attempted := attempted + {candidate};
        OneMoreAttempt(net, attempts, candidate);
        attempts := attempts + [Attempt(candidate, net(candidate, |attempts|))];
        if attempts[|attempts| - 1].outcome.Connected? {
          return Some(candidate), attempts;
        }
      }
    }
    result := None;
  }

  /**
   The rounds of `Client::start`: the known candidates, then, if the device is known, those found by discovery.
   The attempts follow the two lists joined, each string at its first occurrence only. The loop stops at the
   first success, or after at most two rounds with every candidate of both lists tried and failed.
   */
  method ConnectLoop(first: seq<string>, known: bool, refreshed: seq<string>, net: Network)
    returns (result: Option<string>, attempts: seq<Attempt>, rounds: nat)
    ensures rounds <= 2 && Faithful(net, attempts)
    ensures var plan := Extend([], first + if known then refreshed else []);
            && Tried(attempts) <= plan
            && (result.None? ==> Tried(attempts) == plan && AllFailed(attempts))
    ensures result.Some? ==> Succeeded(attempts, result.value)
  {
    ghost var extra := if known then refreshed else [];
    ExtendConcat([], first, extra);
    var candidates := first;
    var discovery := known;
    attempts, rounds := [], 0;
    while true
      invariant rounds <= (if discovery || !known then 0 else 1)
      invariant Faithful(net, attempts) && AllFailed(attempts)
      invariant Extend([], first + extra)
             == Extend(Extend(Tried(attempts), candidates), if discovery then extra else [])
      decreases discovery
    {
      rounds := rounds + 1;
      result, attempts := TryAll(candidates, attempts, net);
      if result.Some? {
        return;
      }
      if !discovery {
        break;
      }
      discovery := false;
      candidates := refreshed;
      if forall i :: 0 <= i < |candidates| ==> candidates[i] in Tried(attempts) {
        ExtendByNothing(Tried(attempts), refreshed);
        break;
      }
    }
  }

  datatype StartResult = Refused | Invalid | Failed | ConnectedTo(candidate: string)

  /** A candidate known before discovery, or, for a known device, after it. */
  predicate MayTry(lib: Library, requested: string, before: Records, after: Records, x: string) {
    var expected := Resolve(lib, requested, before);
    || IsCandidate(lib, requested, expected, before, x)
    || (expected.Some? && IsCandidate(lib, requested, Resolve(lib, requested, after), after, x))
  }

  lemma PlanOfStart(lib: Library, requested: string, before: Records, after: Records,
                    candidates: seq<string>, refreshed: seq<string>)
    requires candidates != [] && candidates[0] == requested
    requires forall x :: x in candidates <==>
                           IsCandidate(lib, requested, Resolve(lib, requested, before), before, x)
    requires forall x :: x in refreshed <==>
                           IsCandidate(lib, requested, Resolve(lib, requested, after), after, x)
    ensures var plan := Extend([], candidates + if Resolve(lib, requested, before).Some? then refreshed else []);
            && NoDuplicates(plan) && [requested] <= plan
            && forall x :: x in plan <==> MayTry(lib, requested, before, after, x)
  {
    var extra := if Resolve(lib, requested, before).Some? then refreshed else [];
    ExtendIsDistinct([], candidates + extra);
    assert (candidates + extra)[0] == requested;
  }

  /**
   `Client::start`: the requested authority is tried before anything else, no string is tried twice, and
   failure means that every candidate known before and after discovery failed.
   */
  method Start(lib: Library, peer: string, mayConnect: bool, before: Records, after: Records, net: Network)
    returns (r: StartResult, attempts: seq<Attempt>)
    requires lib.parse(peer).Some? ==>
               && lib.parse(peer).value.authority != ""
               && lib.parse(lib.parse(peer).value.authority) == lib.parse(peer)
    ensures NoDuplicates(Tried(attempts)) && Faithful(net, attempts)
    ensures r.Refused? <==> !mayConnect
    ensures r.Invalid? <==> mayConnect && lib.parse(peer).None?
    ensures (r.Refused? || r.Invalid?) ==> attempts == []
    ensures r.Failed? || r.ConnectedTo? ==>
              var requested := lib.parse(peer).value.authority;
              && [requested] <= Tried(attempts)
              && (forall x :: x in Tried(attempts) ==> MayTry(lib, requested, before, after, x))
    ensures r.Failed? ==>
              && AllFailed(attempts)
              && (forall x :: MayTry(lib, lib.parse(peer).value.authority, before, after, x) ==> x in Tried(attempts))
    ensures r.ConnectedTo? ==> Succeeded(attempts, r.candidate)
  {
    attempts := [];
    if !mayConnect {
      return Refused, [];
    }
    if lib.parse(peer).None? {
      return Invalid, [];
    }
    var requested := lib.parse(peer).value.authority;
    var expected, candidates := ConnectionCandidates(lib, requested, before);
    var _, refreshed := ConnectionCandidates(lib, requested, after);
    PlanOfStart(lib, requested, before, after, candidates, refreshed);
    var result, rounds;
    result, attempts, rounds := ConnectLoop(candidates, expected.Some?, refreshed, net);
    r := match result case Some(c) => ConnectedTo(c) case None => Failed;
  }
}
