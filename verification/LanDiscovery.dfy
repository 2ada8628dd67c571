/**
 The discovery scan of src/lan.rs: responses are merged one by one into the stored peer list, and the
 peers that did not answer are marked missed. `is_same_peer` and `Endpoint::parse` belong to a library
 that is not part of this model: two peers are the same when their discovery keys are equal, and `ipHost`
 stands for the host of an endpoint that parses and whose host is an IP address.
 */
module LanDiscovery {
  import opened Common
  import opened Lists

  datatype Status = Unchecked | Seen(at: int) | Missed(at: int)

  datatype Peer = Peer(
    id: string, endpoint: string, fingerprint: string, ipMac: map<string, string>, status: Status)

  datatype Response = Response(peer: Peer, at: int)

  type IpHost = string -> Option<string>

  function LowerChar(c: char): char {
    if 'A' <= c <= 'Z' then ((c as int) + 32) as char else c
  }

  /** `to_ascii_lowercase`. */
  function Lower(s: string): (r: string)
    ensures |r| == |s| && forall i :: 0 <= i < |s| ==> r[i] == LowerChar(s[i])
  {
    seq(|s|, i requires 0 <= i < |s| => LowerChar(s[i]))
  }

  function DiscoveryKey(p: Peer): string {
    if p.fingerprint == "" then p.id else Lower(p.fingerprint)
  }

  /** The same letter, in either case, or the same character. */
  predicate SameLetter(a: char, b: char) {
    a == b || ('A' <= a <= 'Z' && b as int - a as int == 32) || ('A' <= b <= 'Z' && a as int - b as int == 32)
  }

  /** Equal up to the case of ASCII letters. */
  predicate EqualIgnoringCase(a: string, b: string) {
    |a| == |b| && forall i :: 0 <= i < |a| ==> SameLetter(a[i], b[i])
  }

  lemma LowerIgnoresCase(a: string, b: string)
    ensures Lower(a) == Lower(b) <==> EqualIgnoringCase(a, b)
  {
    if Lower(a) == Lower(b) {
      assert forall i :: 0 <= i < |a| ==> Lower(a)[i] == Lower(b)[i];
    }
  }

  /**
   Two peers that present fingerprints are the same device exactly if these are equal up to case; two peers without
   are the same exactly if their ids are equal.
   */
  lemma SameIdentityIff(p: Peer, q: Peer)
    requires p.fingerprint == "" <==> q.fingerprint == ""
    ensures DiscoveryKey(p) == DiscoveryKey(q) <==>
            if p.fingerprint == "" then p.id == q.id else EqualIgnoringCase(p.fingerprint, q.fingerprint)
  {
    LowerIgnoresCase(p.fingerprint, q.fingerprint);
  }

  function Keys(peers: seq<Peer>): (ks: seq<string>)
    ensures |ks| == |peers| && forall i :: 0 <= i < |ks| ==> ks[i] == DiscoveryKey(peers[i])
  {
    seq(|peers|, i requires 0 <= i < |peers| => DiscoveryKey(peers[i]))
  }

  function HeardKeys(responses: seq<Response>): (ks: seq<string>)
    ensures |ks| == |responses| && forall i :: 0 <= i < |ks| ==> ks[i] == DiscoveryKey(responses[i].peer)
  {
    seq(|responses|, i requires 0 <= i < |responses| => DiscoveryKey(responses[i].peer))
  }

  // ---------------------------------------------------------------------------
  // Specification of the scan
  // ---------------------------------------------------------------------------

  /** The response takes over the addresses of the entry it replaces, and that entry's own IP host. */
  function Inherit(ipHost: IpHost, peer: Peer, former: Peer): Peer {
    var host := ipHost(former.endpoint);
    var own := if host.Some? && host.value !in peer.ipMac then peer.ipMac[host.value := ""] else peer.ipMac;
    peer.(ipMac := own + former.ipMac)
  }

  function MergeOne(ipHost: IpHost, peers: seq<Peer>, r: Response): seq<Peer> {
    var peer := r.peer.(status := Seen(r.at));
    var i := IndexOf(Keys(peers), DiscoveryKey(peer));
    if i == |peers| then [peer] + peers
    else [Inherit(ipHost, peer, peers[i])] + RemoveAt(peers, i)
  }

  function MergeAll(ipHost: IpHost, stored: seq<Peer>, responses: seq<Response>): seq<Peer> {
    if responses == [] then stored
    else
      var n := |responses| - 1;
      MergeOne(ipHost, MergeAll(ipHost, stored, responses[..n]), responses[n])
  }

  function Publish(peers: seq<Peer>, heard: seq<string>, now: int): (r: seq<Peer>)
    ensures |r| == |peers| && Keys(r) == Keys(peers)
  {
    seq(|peers|, i requires 0 <= i < |peers| =>
      if DiscoveryKey(peers[i]) in heard then peers[i] else peers[i].(status := Missed(now)))
  }

  function Scan(ipHost: IpHost, stored: seq<Peer>, responses: seq<Response>, now: int): seq<Peer> {
    Publish(MergeAll(ipHost, stored, responses), HeardKeys(responses), now)
  }

  // ---------------------------------------------------------------------------
  // Order and identity: the keys move to the front
  // ---------------------------------------------------------------------------

  lemma KeysOfRemoved(peers: seq<Peer>, i: nat)
    requires i <= |peers|
    ensures Keys(RemoveAt(peers, i)) == RemoveAt(Keys(peers), i)
  {
  }

  lemma KeysOfFront(p: Peer, rest: seq<Peer>)
    ensures Keys([p] + rest) == [DiscoveryKey(p)] + Keys(rest)
  {
  }

  lemma MergeMovesToFront(ipHost: IpHost, peers: seq<Peer>, r: Response)
    ensures var k := DiscoveryKey(r.peer);
            Keys(MergeOne(ipHost, peers, r)) == [k] + RemoveAt(Keys(peers), IndexOf(Keys(peers), k))
  {
    var peer := r.peer.(status := Seen(r.at));
    var i := IndexOf(Keys(peers), DiscoveryKey(peer));
    KeysOfRemoved(peers, i);
    if i == |peers| {
      KeysOfFront(peer, peers);
      assert RemoveAt(peers, i) == peers;
    } else {
      KeysOfFront(Inherit(ipHost, peer, peers[i]), RemoveAt(peers, i));
    }
  }

  /** The published order: heard peers most recent first, then the unheard ones as they were. */
  lemma {:induction false} MergedOrder(ipHost: IpHost, stored: seq<Peer>, responses: seq<Response>)
    requires NoDuplicates(Keys(stored))
    ensures var heard := HeardKeys(responses);
            Keys(MergeAll(ipHost, stored, responses)) == MostRecentFirst(heard) + Except(Keys(stored), heard)
    decreases |responses|
  {
    var heard := HeardKeys(responses);
    if responses == [] {
      ExceptEmpty(Keys(stored));
      assert heard == [];
    } else {
      var n := |responses| - 1;
      var before, k := HeardKeys(responses[..n]), DiscoveryKey(responses[n].peer);
      assert heard == before + [k] && heard[..n] == before;
      MergedOrder(ipHost, stored, responses[..n]);
      var ks := MostRecentFirst(before) + Except(Keys(stored), before);
      OrderIsDistinct(before, Keys(stored));
      MergeMovesToFront(ipHost, MergeAll(ipHost, stored, responses[..n]), responses[n]);
      RemoveIsExcept(ks, k);
      ExceptConcat(MostRecentFirst(before), Except(Keys(stored), before), [k]);
      ExceptTwice(Keys(stored), before, k);
    }
  }

  lemma {:induction false} MergeKeepsKeys(ipHost: IpHost, stored: seq<Peer>, responses: seq<Response>)
    ensures multiset(Keys(stored)) <= multiset(Keys(MergeAll(ipHost, stored, responses)))
    decreases |responses|
  {
    if responses != [] {
      var n := |responses| - 1;
      MergeKeepsKeys(ipHost, stored, responses[..n]);
      var peers := MergeAll(ipHost, stored, responses[..n]);
      var k := DiscoveryKey(responses[n].peer);
      var i := IndexOf(Keys(peers), k);
      MergeMovesToFront(ipHost, peers, responses[n]);
      if i < |peers| {
        RemoveAtCounts(Keys(peers), i);
      }
    }
  }

  lemma MergedKeysAreDistinct(ipHost: IpHost, stored: seq<Peer>, responses: seq<Response>)
    requires NoDuplicates(Keys(stored))
    ensures NoDuplicates(Keys(MergeAll(ipHost, stored, responses)))
  {
    MergedOrder(ipHost, stored, responses);
    OrderIsDistinct(HeardKeys(responses), Keys(stored));
  }

  /** The scan gives every identity one entry exactly when the stored list did. */
  lemma IdentitiesStayDistinct(ipHost: IpHost, stored: seq<Peer>, responses: seq<Response>, now: int)
    ensures NoDuplicates(Keys(Scan(ipHost, stored, responses, now))) <==> NoDuplicates(Keys(stored))
  {
    if NoDuplicates(Keys(stored)) {
      MergedKeysAreDistinct(ipHost, stored, responses);
    }
    MergeKeepsKeys(ipHost, stored, responses);
    if NoDuplicates(Keys(Scan(ipHost, stored, responses, now))) {
      MoreIsNotDistinct(Keys(stored), Keys(MergeAll(ipHost, stored, responses)));
    }
  }

  // ---------------------------------------------------------------------------
  // Contents of the entries
  // ---------------------------------------------------------------------------

  ghost predicate IsLastFor(responses: seq<Response>, i: nat, k: string)
    requires i < |responses|
  {
    && DiscoveryKey(responses[i].peer) == k
    && forall j :: i < j < |responses| ==> DiscoveryKey(responses[j].peer) != k
  }

  /** `p` repeats the last response with its identity. */
  ghost predicate FromLastResponse(p: Peer, responses: seq<Response>) {
    exists i :: 0 <= i < |responses| && IsLastFor(responses, i, DiscoveryKey(p))
                && p.id == responses[i].peer.id && p.endpoint == responses[i].peer.endpoint
                && p.fingerprint == responses[i].peer.fingerprint && p.status == Seen(responses[i].at)
  }

  /** A heard entry repeats its last response, an unheard one is as stored. */
  ghost predicate EntryOk(stored: seq<Peer>, responses: seq<Response>, p: Peer) {
    if DiscoveryKey(p) in HeardKeys(responses) then FromLastResponse(p, responses) else p in stored
  }

  ghost predicate ContentsOk(stored: seq<Peer>, responses: seq<Response>, peers: seq<Peer>) {
    forall p :: p in peers ==> EntryOk(stored, responses, p)
  }

  lemma OtherKeyInRemoveAt(peers: seq<Peer>, i: nat, p: Peer)
    requires i < |peers| && NoDuplicates(Keys(peers)) && p in RemoveAt(peers, i)
    ensures p in peers && DiscoveryKey(p) != DiscoveryKey(peers[i])
  {
    var j := InRemoveAt(peers, i, p);
    assert Keys(peers)[j] != Keys(peers)[i];
  }

  lemma LastStaysLast(p: Peer, responses: seq<Response>, r: Response)
    requires FromLastResponse(p, responses) && DiscoveryKey(p) != DiscoveryKey(r.peer)
    ensures FromLastResponse(p, responses + [r])
  {
    var i :| 0 <= i < |responses| && IsLastFor(responses, i, DiscoveryKey(p))
      && p.id == responses[i].peer.id && p.endpoint == responses[i].peer.endpoint
      && p.fingerprint == responses[i].peer.fingerprint && p.status == Seen(responses[i].at);
    var all := responses + [r];
    assert all[i] == responses[i] && IsLastFor(all, i, DiscoveryKey(p));
  }

  /** An entry with another identity is not touched by a response. */
  lemma OtherEntryStaysOk(stored: seq<Peer>, responses: seq<Response>, r: Response, p: Peer)
    requires EntryOk(stored, responses, p) && DiscoveryKey(p) != DiscoveryKey(r.peer)
    ensures EntryOk(stored, responses + [r], p)
  {
    assert HeardKeys(responses + [r]) == HeardKeys(responses) + [DiscoveryKey(r.peer)];
    if DiscoveryKey(p) in HeardKeys(responses) {
      LastStaysLast(p, responses, r);
    }
  }

  lemma NewEntryIsOk(stored: seq<Peer>, responses: seq<Response>, r: Response, p: Peer)
    requires p.id == r.peer.id && p.endpoint == r.peer.endpoint && p.fingerprint == r.peer.fingerprint
    requires p.status == Seen(r.at)
    ensures EntryOk(stored, responses + [r], p)
  {
    var all := responses + [r];
    assert HeardKeys(all) == HeardKeys(responses) + [DiscoveryKey(r.peer)];
    assert IsLastFor(all, |responses|, DiscoveryKey(p));
  }

  lemma MergeOneContents(ipHost: IpHost, stored: seq<Peer>, responses: seq<Response>, peers: seq<Peer>, r: Response)
    requires NoDuplicates(Keys(peers)) && ContentsOk(stored, responses, peers)
    ensures ContentsOk(stored, responses + [r], MergeOne(ipHost, peers, r))
  {
    var merged, k := MergeOne(ipHost, peers, r), DiscoveryKey(r.peer);
    var i := IndexOf(Keys(peers), k);
    forall p | p in merged ensures EntryOk(stored, responses + [r], p) {
      if p == merged[0] {
        NewEntryIsOk(stored, responses, r, p);
      } else {
        assert p in merged[1..] && merged[1..] == RemoveAt(peers, i);
        if i < |peers| {
          OtherKeyInRemoveAt(peers, i, p);
        } else {
          var j :| 0 <= j < |peers| && peers[j] == p;
          assert Keys(peers)[j] == DiscoveryKey(p) && k !in Keys(peers);
        }
        OtherEntryStaysOk(stored, responses, r, p);
      }
    }
  }

  lemma MergeSnoc(ipHost: IpHost, stored: seq<Peer>, before: seq<Response>, r: Response)
    ensures MergeAll(ipHost, stored, before + [r]) == MergeOne(ipHost, MergeAll(ipHost, stored, before), r)
    ensures HeardKeys(before + [r]) == HeardKeys(before) + [DiscoveryKey(r.peer)]
  {
    assert (before + [r])[..|before|] == before;
  }

  lemma ContentsSnoc(ipHost: IpHost, stored: seq<Peer>, before: seq<Response>, r: Response)
    requires NoDuplicates(Keys(stored))
    requires ContentsOk(stored, before, MergeAll(ipHost, stored, before))
    ensures ContentsOk(stored, before + [r], MergeAll(ipHost, stored, before + [r]))
  {
    MergeSnoc(ipHost, stored, before, r);
    MergedKeysAreDistinct(ipHost, stored, before);
    MergeOneContents(ipHost, stored, before, MergeAll(ipHost, stored, before), r);
  }

  lemma {:induction false} MergedContents(ipHost: IpHost, stored: seq<Peer>, responses: seq<Response>)
    requires NoDuplicates(Keys(stored))
    ensures ContentsOk(stored, responses, MergeAll(ipHost, stored, responses))
    decreases |responses|
  {
    if responses != [] {
      var before, r := responses[..|responses| - 1], responses[|responses| - 1];
      assert ContentsOk(stored, before + [r], MergeAll(ipHost, stored, before + [r])) by {
        MergedContents(ipHost, stored, before);
        ContentsSnoc(ipHost, stored, before, r);
      }
      assert responses == before + [r];
    }
  }

  // ---------------------------------------------------------------------------
  // Known addresses
  // ---------------------------------------------------------------------------

  /** The recorded addresses of a peer and the IP host of its endpoint. */
  function Known(ipHost: IpHost, p: Peer): set<string> {
    p.ipMac.Keys + match ipHost(p.endpoint) { case Some(h) => {h} case None => {} }
  }

  /** Every address known under the identity `k`. */
  ghost function KnownFor(ipHost: IpHost, peers: seq<Peer>, k: string): set<string> {
    set p, a | p in peers && DiscoveryKey(p) == k && a in Known(ipHost, p) :: a
  }

  ghost function KnownHeard(ipHost: IpHost, responses: seq<Response>, k: string): set<string> {
    set r, a | r in responses && DiscoveryKey(r.peer) == k && a in Known(ipHost, r.peer) :: a
  }

  lemma InsertAddresses(ipHost: IpHost, p: Peer, peers: seq<Peer>, k: string)
    ensures KnownFor(ipHost, [p] + peers, k)
         == KnownFor(ipHost, peers, k) + if DiscoveryKey(p) == k then Known(ipHost, p) else {}
  {
    assert forall q :: q in [p] + peers <==> q == p || q in peers;
  }

  lemma RemoveAddresses(ipHost: IpHost, peers: seq<Peer>, i: nat, k: string)
    requires i < |peers|
    ensures KnownFor(ipHost, peers, k)
         == KnownFor(ipHost, RemoveAt(peers, i), k)
            + if DiscoveryKey(peers[i]) == k then Known(ipHost, peers[i]) else {}
  {
    assert peers == peers[..i] + [peers[i]] + peers[i + 1..];
    assert forall q :: q in peers <==> q == peers[i] || q in RemoveAt(peers, i);
  }

  lemma MergeOneAddresses(ipHost: IpHost, peers: seq<Peer>, r: Response, k: string)
    ensures KnownFor(ipHost, MergeOne(ipHost, peers, r), k)
         == KnownFor(ipHost, peers, k) + if DiscoveryKey(r.peer) == k then Known(ipHost, r.peer) else {}
  {
    var peer := r.peer.(status := Seen(r.at));
    var i := IndexOf(Keys(peers), DiscoveryKey(peer));
    if i == |peers| {
      InsertAddresses(ipHost, peer, peers, k);
    } else {
      InsertAddresses(ipHost, Inherit(ipHost, peer, peers[i]), RemoveAt(peers, i), k);
      RemoveAddresses(ipHost, peers, i, k);
    }
  }

  lemma PublishKeepsAddresses(ipHost: IpHost, peers: seq<Peer>, heard: seq<string>, now: int, k: string)
    ensures KnownFor(ipHost, Publish(peers, heard, now), k) == KnownFor(ipHost, peers, k)
  {
    var out := Publish(peers, heard, now);
    forall i | 0 <= i < |peers|
      ensures DiscoveryKey(out[i]) == DiscoveryKey(peers[i]) && Known(ipHost, out[i]) == Known(ipHost, peers[i])
    {
    }
  }

  lemma HeardAddresses(ipHost: IpHost, responses: seq<Response>, r: Response, k: string)
    ensures KnownHeard(ipHost, responses + [r], k)
         == KnownHeard(ipHost, responses, k) + if DiscoveryKey(r.peer) == k then Known(ipHost, r.peer) else {}
  {
    assert forall q :: q in responses + [r] <==> q in responses || q == r;
  }

  /** For every identity the merged list knows exactly the stored and the heard addresses. */
  lemma {:induction false} MergedAddresses(ipHost: IpHost, stored: seq<Peer>, responses: seq<Response>, k: string)
    ensures KnownFor(ipHost, MergeAll(ipHost, stored, responses), k)
         == KnownFor(ipHost, stored, k) + KnownHeard(ipHost, responses, k)
    decreases |responses|
  {
    if responses != [] {
      var before, r := responses[..|responses| - 1], responses[|responses| - 1];
      assert responses == before + [r];
      var heard := if DiscoveryKey(r.peer) == k then Known(ipHost, r.peer) else {};
      calc {
        KnownFor(ipHost, MergeAll(ipHost, stored, responses), k);
        { MergeSnoc(ipHost, stored, before, r); }
        KnownFor(ipHost, MergeOne(ipHost, MergeAll(ipHost, stored, before), r), k);
        { MergeOneAddresses(ipHost, MergeAll(ipHost, stored, before), r, k); }
        KnownFor(ipHost, MergeAll(ipHost, stored, before), k) + heard;
        { MergedAddresses(ipHost, stored, before, k); }
        KnownFor(ipHost, stored, k) + KnownHeard(ipHost, before, k) + heard;
        { HeardAddresses(ipHost, before, r, k); }
        KnownFor(ipHost, stored, k) + KnownHeard(ipHost, responses, k);
      }
    }
  }

  // ---------------------------------------------------------------------------
  // Recorded hardware addresses
  // ---------------------------------------------------------------------------

  predicate EntryRecords(p: Peer, k: string, address: string, mac: string) {
    DiscoveryKey(p) == k && address in p.ipMac && p.ipMac[address] == mac
  }

  /** Under the identity `k` the address has this hardware address on record. */
  ghost predicate OnRecord(peers: seq<Peer>, k: string, address: string, mac: string) {
    exists i :: 0 <= i < |peers| && EntryRecords(peers[i], k, address, mac)
  }

  lemma InheritKeepsRecord(ipHost: IpHost, peer: Peer, former: Peer, k: string, address: string, mac: string)
    requires EntryRecords(former, k, address, mac) && DiscoveryKey(peer) == k
    ensures EntryRecords(Inherit(ipHost, peer, former), k, address, mac)
  {
  }

  lemma MergeKeepsRecord(ipHost: IpHost, peers: seq<Peer>, r: Response, k: string, address: string, mac: string)
    requires OnRecord(peers, k, address, mac)
    ensures OnRecord(MergeOne(ipHost, peers, r), k, address, mac)
  {
    var i :| 0 <= i < |peers| && EntryRecords(peers[i], k, address, mac);
    var peer := r.peer.(status := Seen(r.at));
    var merged, j := MergeOne(ipHost, peers, r), IndexOf(Keys(peers), DiscoveryKey(peer));
    if i == j {
      InheritKeepsRecord(ipHost, peer, peers[i], k, address, mac);
      assert EntryRecords(merged[0], k, address, mac);
    } else {
      var at := RemoveAtKeeps(peers, i, j);
      assert merged[1..] == RemoveAt(peers, j);
      assert EntryRecords(merged[1..][at], k, address, mac) && merged[at + 1] == merged[1..][at];
    }
  }

  /** A hardware address once on record is never overwritten by a response. */
  lemma {:induction false} RecordsStay(ipHost: IpHost, stored: seq<Peer>, responses: seq<Response>,
                                       k: string, address: string, mac: string)
    requires OnRecord(stored, k, address, mac)
    ensures OnRecord(MergeAll(ipHost, stored, responses), k, address, mac)
    decreases |responses|
  {
    if responses != [] {
      var n := |responses| - 1;
      RecordsStay(ipHost, stored, responses[..n], k, address, mac);
      MergeKeepsRecord(ipHost, MergeAll(ipHost, stored, responses[..n]), responses[n], k, address, mac);
    }
  }

  // ---------------------------------------------------------------------------
  // The scan as a whole, and the code
  // ---------------------------------------------------------------------------

  /** The presence and the identity data of a published entry. */
  ghost predicate Published(stored: seq<Peer>, responses: seq<Response>, now: int, p: Peer) {
    if DiscoveryKey(p) in HeardKeys(responses) then FromLastResponse(p, responses)
    else exists q :: q in stored && p == q.(status := Missed(now))
  }

  /**
   From a stored list without duplicate identities and any stream of responses: the heard peers come first,
   the most recently heard at the front, then the unheard stored peers in their old order; heard entries repeat
   their last response and count as seen, the others are their stored entries marked missed; and for every
   identity the known addresses are exactly the stored ones and the heard ones.
   */
  lemma ScanResult(ipHost: IpHost, stored: seq<Peer>, responses: seq<Response>, now: int, k: string)
    requires NoDuplicates(Keys(stored))
    ensures var out, heard := Scan(ipHost, stored, responses, now), HeardKeys(responses);
            && Keys(out) == MostRecentFirst(heard) + Except(Keys(stored), heard)
            && NoDuplicates(Keys(out))
            && (forall p :: p in out ==> Published(stored, responses, now, p))
            && KnownFor(ipHost, out, k) == KnownFor(ipHost, stored, k) + KnownHeard(ipHost, responses, k)
  {
    var merged, heard := MergeAll(ipHost, stored, responses), HeardKeys(responses);
    var out := Scan(ipHost, stored, responses, now);
    MergedOrder(ipHost, stored, responses);
    IdentitiesStayDistinct(ipHost, stored, responses, now);
    MergedContents(ipHost, stored, responses);
    forall p | p in out ensures Published(stored, responses, now, p) {
      var i :| 0 <= i < |out| && out[i] == p;
      assert merged[i] in merged && DiscoveryKey(merged[i]) == DiscoveryKey(p);
    }
    MergedAddresses(ipHost, stored, responses, k);
    PublishKeepsAddresses(ipHost, merged, heard, now, k);
  }

  /** One received response: find, take over the addresses, move to the front. */
  method Receive(ipHost: IpHost, peers: seq<Peer>, r: Response) returns (peers': seq<Peer>)
    ensures peers' == MergeOne(ipHost, peers, r)
  {
    var peer := r.peer.(status := Seen(r.at));
    var pos := 0;
    while pos < |peers| && DiscoveryKey(peers[pos]) != DiscoveryKey(peer)
      invariant 0 <= pos <= |peers|
      invariant DiscoveryKey(peer) !in Keys(peers)[..pos]
    {
      pos := pos + 1;
    }
    IndexOfIsUnique(Keys(peers), DiscoveryKey(peer), pos);
    peers' := peers;
    if pos < |peers| {
      var former := peers[pos];
      peers' := peers[..pos] + peers[pos + 1..];
      var host := ipHost(former.endpoint);
      if host.Some? && host.value !in peer.ipMac {
        peer := peer.(ipMac := peer.ipMac[host.value := ""]);
      }
      peer := peer.(ipMac := peer.ipMac + former.ipMac);
    }
    peers' := [peer] + peers';
  }

  /** The loop that marks every peer whose key was not heard. */
  method MarkMissed(merged: seq<Peer>, seen: set<string>, ghost heard: seq<string>, now: int)
    returns (peers: seq<Peer>)
    requires forall k :: k in seen <==> k in heard
    ensures peers == Publish(merged, heard, now)
  {
    peers := merged;
    for i := 0 to |peers|
      invariant |peers| == |merged|
      invariant forall j :: 0 <= j < i ==> peers[j] == Publish(merged, heard, now)[j]
      invariant forall j :: i <= j < |peers| ==> peers[j] == merged[j]
    {
      if DiscoveryKey(peers[i]) !in seen {
        peers := peers[i := peers[i].(status := Missed(now))];
      }
    }
  }

  lemma ReceiveOne(ipHost: IpHost, stored: seq<Peer>, responses: seq<Response>, n: nat)
    requires n < |responses|
    ensures MergeAll(ipHost, stored, responses[..n + 1])
         == MergeOne(ipHost, MergeAll(ipHost, stored, responses[..n]), responses[n])
    ensures HeardKeys(responses[..n + 1]) == HeardKeys(responses[..n]) + [DiscoveryKey(responses[n].peer)]
  {
    PrefixSnoc(responses, n);
    MergeSnoc(ipHost, stored, responses[..n], responses[n]);
  }

  /** The loop that takes the responses as they arrive. */
  method ReceiveAll(ipHost: IpHost, stored: seq<Peer>, responses: seq<Response>)
    returns (peers: seq<Peer>, seen: set<string>)
    ensures peers == MergeAll(ipHost, stored, responses)
    ensures forall k :: k in seen <==> k in HeardKeys(responses)
  {
    peers, seen := stored, {};
    for n := 0 to |responses|
      invariant peers == MergeAll(ipHost, stored, responses[..n])
      invariant forall k :: k in seen <==> k in HeardKeys(responses[..n])
    {
      ReceiveOne(ipHost, stored, responses, n);
      seen := seen + {DiscoveryKey(responses[n].peer)};
      peers := Receive(ipHost, peers, responses[n]);
    }
    assert responses[..|responses|] == responses;
  }

  method HandleReceivedPeers(ipHost: IpHost, stored: seq<Peer>, responses: seq<Response>, now: int)
    returns (peers: seq<Peer>)
    ensures peers == Scan(ipHost, stored, responses, now)
  {
    var seen;
    peers, seen := ReceiveAll(ipHost, stored, responses);
    peers := MarkMissed(peers, seen, HeardKeys(responses), now);
  }
}
