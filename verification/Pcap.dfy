/**
 The capture writer behind the fixture dissection: BACnet/IP payloads in UDP,
 IPv4 and Ethernet, in a little-endian pcap file. A strict reader, written from
 the formats, is the measure of what the writer produces: it checks every
 length field, the file's snapshot length included, and the IPv4 header checksum
 (section 3.1 of RFC 791).
 */
module Pcap {
  import opened Wire
  import opened BipCodec
  import opened Router

  const MAX_PAYLOAD: nat := 65507
  const FIRST_TIME: nat := 1700000000
  const MAX_TIME: nat := 0xFFFF_FFFF

  function Little32(n: nat): (r: Octets)
    requires n <= MAX_TIME
    ensures |r| == 4
  {
    [n % 0x100, n / 0x100 % 0x100, n / 0x100 / 0x100 % 0x100, n / 0x100 / 0x100 / 0x100]
  }

  function JoinLittle32(s: Octets): nat
    requires |s| == 4
  {
    var (a: nat, b: nat, c: nat, d: nat) := (s[0], s[1], s[2], s[3]);
    a + 0x100 * (b + 0x100 * (c + 0x100 * d))
  }

  lemma Little32RoundTrip(n: nat)
    requires n <= MAX_TIME
    ensures JoinLittle32(Little32(n)) == n
  {
  }

  // ----- The ones' complement sum -----

  /** The sum of the big-endian words of an even number of octets. */
  function WordSum(s: Octets): nat
    requires |s| % 2 == 0
  {
    if s == [] then 0 else Join16(s[0], s[1]) + WordSum(s[2..])
  }

  /** Carries are added back in until the sum fits a word. */
  function Fold(total: nat): (r: nat)
    ensures r <= 0xFFFF
  {
    if total <= 0xFFFF then total else Fold(total % 0x10000 + total / 0x10000)
  }

  lemma {:induction false} FoldKeepsResidue(total: nat)
    ensures Fold(total) % 0xFFFF == total % 0xFFFF
    ensures total > 0 ==> Fold(total) > 0
  {
    if total > 0xFFFF {
      var next := total % 0x10000 + total / 0x10000;
      assert total == next + 0xFFFF * (total / 0x10000);
      AddMultiple(next, total / 0x10000);
      FoldKeepsResidue(next);
    }
  }

  lemma AddMultiple(n: nat, q: nat)
    ensures (n + 0xFFFF * q) % 0xFFFF == n % 0xFFFF
  {
  }

  /** Storing the complement of the folded sum makes the whole fold to all ones. */
  lemma ChecksumFoldsToOnes(total: nat)
    requires total > 0
    ensures Fold(total + (0xFFFF - Fold(total))) == 0xFFFF
  {
    var f, stored := Fold(total), 0xFFFF - Fold(total);
    FoldKeepsResidue(total);
    FoldKeepsResidue(total + stored);
    var q, r := total / 0xFFFF, total % 0xFFFF;
    assert total == 0xFFFF * q + r;
    assert f % 0xFFFF == r;
    assert f == r || f == r + 0xFFFF;
    assert total + stored == 0 + 0xFFFF * (if f == r then q + 1 else q);
    AddMultiple(0, if f == r then q + 1 else q);
  }

  // ----- Writing -----

  function Udp(payload: Octets): Octets
    requires |payload| <= MAX_PAYLOAD
  {
    BigEndian16(47808) + BigEndian16(47808) + BigEndian16(8 + |payload|) + BigEndian16(0) + payload
  }

  /** The 20-octet IPv4 header for `length` octets in all. */
  function IpHeader(length: uint16, checksum: uint16): (r: Octets)
    ensures |r| == 20
  {
    [0x45, 0] + BigEndian16(length) + [0, 0, 0, 0, 64, 17] + BigEndian16(checksum) + [10, 0, 0, 1, 10, 0, 0, 2]
  }

  const ETHERNET: Octets := [2, 0, 0, 0, 0, 2, 2, 0, 0, 0, 0, 1, 0x08, 0x00]

  /** What the global header says no record is longer than. */
  const SNAPSHOT_LENGTH: nat := 0xFFFF

  const GLOBAL_HEADER: Octets :=
    [0xD4, 0xC3, 0xB2, 0xA1] + [2, 0, 4, 0] + [0, 0, 0, 0, 0, 0, 0, 0] + [0xFF, 0xFF, 0, 0] + [1, 0, 0, 0]

  /** What `struct.pack` can pack: a length field and a time stamp that fit. */
  predicate Packable(frames: seq<Octets>) {
    FIRST_TIME + |frames| - 1 <= MAX_TIME && forall f | f in frames :: |f| <= MAX_PAYLOAD
  }

  /** Every packet, its 42 octets of headers included, is within the snapshot length. */
  predicate Whole(frames: seq<Octets>) {
    forall f | f in frames :: 42 + |f| <= SNAPSHOT_LENGTH
  }

  // ----- Reading -----

  /** The UDP payload of one captured packet, from 10.0.0.1 to 10.0.0.2, each at the port of BACnet/IP, 0xBAC0. */
  function ReadPacket(pkt: Octets): Option<Octets> {
    if |pkt| < 42 || pkt[..14] != [2, 0, 0, 0, 0, 2, 2, 0, 0, 0, 0, 1, 0x08, 0x00] then None
    else
      var ip, udp := pkt[14..34], pkt[34..];
      if ip[0] != 0x45 || ip[9] != 17 || Join16(ip[2], ip[3]) != |pkt| - 14 || Fold(WordSum(ip)) != 0xFFFF then None
      else if ip[1] != 0 || ip[4..9] != [0, 0, 0, 0, 64] || ip[12..20] != [10, 0, 0, 1, 10, 0, 0, 2] then None
      else if udp[..4] != [0xBA, 0xC0, 0xBA, 0xC0] || udp[6..8] != [0, 0] then None
      else if Join16(udp[4], udp[5]) != |udp| then None
      else Some(udp[8..])
  }

  /** The records from number `i` on: consecutive seconds, nothing cut short, none longer than the snapshot length. */
  function ReadRecords(s: Octets, i: nat): Option<seq<Octets>> {
    if s == [] then Some([])
    else if |s| < 16 then None
    else
      var n := JoinLittle32(s[8..12]);
      if JoinLittle32(s[..4]) != 1_700_000_000 + i || s[4..8] != [0, 0, 0, 0] then None
      else if s[12..16] != s[8..12] || n > SNAPSHOT_LENGTH || |s| < 16 + n then None
      else match ReadPacket(s[16..16 + n])
           case None => None
           case Some(payload) =>
             match ReadRecords(s[16 + n..], i + 1)
             case None => None
             case Some(rest) => Some([payload] + rest)
  }

  /** A little-endian file of format 2.4 with Ethernet frames. */
  function ReadPcap(s: Octets): Option<seq<Octets>> {
    if |s| < 24 || JoinLittle32(s[..4]) != 0xA1B2C3D4 || s[4..8] != [2, 0, 4, 0] || s[8..16] != [0, 0, 0, 0, 0, 0, 0, 0]
       || JoinLittle32(s[16..20]) != SNAPSHOT_LENGTH || JoinLittle32(s[20..24]) != 1 then None
    else ReadRecords(s[24..], 0)
  }

  // ----- The writer against the reader -----

  function Packet(payload: Octets): Octets
    requires |payload| <= MAX_PAYLOAD
  {
    var length := 28 + |payload|;
    ETHERNET + IpHeader(length, 0xFFFF - Fold(WordSum(IpHeader(length, 0)))) + Udp(payload)
  }

  function Record(i: nat, payload: Octets): Octets
    requires |payload| <= MAX_PAYLOAD && FIRST_TIME + i <= MAX_TIME
  {
    Little32(FIRST_TIME + i) + Little32(0) + Little32(42 + |payload|) + Little32(42 + |payload|) + Packet(payload)
  }

  function Records(frames: seq<Octets>, i: nat): Octets
    requires FIRST_TIME + i + |frames| - 1 <= MAX_TIME && forall f | f in frames :: |f| <= MAX_PAYLOAD
  {
    if frames == [] then [] else Record(i, frames[0]) + Records(frames[1..], i + 1)
  }

  lemma HeaderSum(length: uint16, checksum: uint16)
    ensures WordSum(IpHeader(length, checksum)) == WordSum(IpHeader(length, 0)) + checksum
    ensures WordSum(IpHeader(length, 0)) > 0
  {
    WordSumOf(length, checksum);
    WordSumOf(length, 0);
  }

  lemma WordSumFrom(s: Octets, k: nat)
    requires |s| % 2 == 0 && k % 2 == 0 && k + 2 <= |s|
    ensures WordSum(s[k..]) == Join16(s[k], s[k + 1]) + WordSum(s[k + 2..])
  {
  }

  lemma WordSumOf(length: uint16, checksum: uint16)
    ensures WordSum(IpHeader(length, checksum)) == 0x4500 + length as int + 0x4011 + checksum as int + 0x1403
  {
    var s := IpHeader(length, checksum);
    SplitJoin16(length);
    SplitJoin16(checksum);
    assert s[0..] == s;
    assert s[20..] == [];
    HeaderWords(length, checksum);
    hide IpHeader, WordSum, Join16;
    WordSumFrom(s, 0);
    WordSumFrom(s, 2);
    WordSumFrom(s, 4);
    WordSumFrom(s, 6);
    WordSumFrom(s, 8);
    WordSumFrom(s, 10);
    WordSumFrom(s, 12);
    WordSumFrom(s, 14);
    WordSumFrom(s, 16);
    WordSumFrom(s, 18);
  }

  lemma HeaderWords(length: uint16, checksum: uint16)
    ensures var s := IpHeader(length, checksum);
            Join16(s[0], s[1]) == 0x4500 && Join16(s[2], s[3]) == length && Join16(s[4], s[5]) == 0
            && Join16(s[6], s[7]) == 0 && Join16(s[8], s[9]) == 0x4011 && Join16(s[10], s[11]) == checksum
            && Join16(s[12], s[13]) == 0x0A00 && Join16(s[14], s[15]) == 1
            && Join16(s[16], s[17]) == 0x0A00 && Join16(s[18], s[19]) == 2
    ensures WordSum([]) == 0
  {
    SplitJoin16(length);
    SplitJoin16(checksum);
    var s, l, c := IpHeader(length, checksum), BigEndian16(length), BigEndian16(checksum);
    hide BigEndian16;
    assert s[2] == l[0] && s[3] == l[1] && s[10] == c[0] && s[11] == c[1];
  }

  lemma PacketIsRead(payload: Octets)
    requires |payload| <= MAX_PAYLOAD
    ensures |Packet(payload)| == 42 + |payload| && ReadPacket(Packet(payload)) == Some(payload)
  {
    hide WordSum, Fold, IpHeader, Udp, Join16;
    var length := 28 + |payload|;
    var sum := WordSum(IpHeader(length, 0));
    var ip, udp, pkt := IpHeader(length, 0xFFFF - Fold(sum)), Udp(payload), Packet(payload);
    HeaderSum(length, 0xFFFF - Fold(sum));
    ChecksumFoldsToOnes(sum);
    HeaderIsRead(length, 0xFFFF - Fold(sum));
    UdpIsRead(payload);
    assert pkt[..14] == ETHERNET && pkt[14..34] == ip && pkt[34..] == udp;
  }

  lemma HeaderIsRead(length: uint16, checksum: uint16)
    ensures var ip := IpHeader(length, checksum);
            ip[0] == 0x45 && ip[9] == 17 && Join16(ip[2], ip[3]) == length && ip[12..20] == [10, 0, 0, 1, 10, 0, 0, 2]
            && ip[1] == 0 && ip[4..9] == [0, 0, 0, 0, 64]
  {
  }

  lemma UdpIsRead(payload: Octets)
    requires |payload| <= MAX_PAYLOAD
    ensures var udp := Udp(payload);
            |udp| == 8 + |payload| && Join16(udp[4], udp[5]) == |udp| && udp[8..] == payload
            && udp[..4] == [0xBA, 0xC0, 0xBA, 0xC0] && udp[6..8] == [0, 0]
  {
  }

  lemma {:induction false} RecordIsRead(i: nat, payload: Octets, rest: Octets)
    requires |payload| <= MAX_PAYLOAD && FIRST_TIME + i <= MAX_TIME
    ensures ReadRecords(Record(i, payload) + rest, i) ==
            if 42 + |payload| > SNAPSHOT_LENGTH then None
            else match ReadRecords(rest, i + 1)
                 case None => None
                 case Some(more) => Some([payload] + more)
  {
    hide Little32, JoinLittle32, Packet, ReadPacket;
    var s := Record(i, payload) + rest;
    PacketIsRead(payload);
    Little32RoundTrip(FIRST_TIME + i);
    Little32RoundTrip(42 + |payload|);
    LittleZero();
    assert s[..4] == Little32(FIRST_TIME + i) && s[4..8] == Little32(0);
    assert s[8..12] == Little32(42 + |payload|) == s[12..16];
    assert s[16..16 + (42 + |payload|)] == Packet(payload) && s[16 + (42 + |payload|)..] == rest;
  }

  lemma LittleZero()
    ensures Little32(0) == [0, 0, 0, 0]
  {
  }

  lemma {:induction false} RecordsAreRead(frames: seq<Octets>, i: nat)
    requires FIRST_TIME + i + |frames| - 1 <= MAX_TIME && forall f | f in frames :: |f| <= MAX_PAYLOAD
    ensures ReadRecords(Records(frames, i), i) == if Whole(frames) then Some(frames) else None
  {
    hide Record;
    if frames != [] {
      RecordsAreRead(frames[1..], i + 1);
      RecordIsRead(i, frames[0], Records(frames[1..], i + 1));
      assert frames == [frames[0]] + frames[1..];
      assert Whole(frames) <==> 42 + |frames[0]| <= SNAPSHOT_LENGTH && Whole(frames[1..]);
    }
  }

  lemma {:induction false} RecordsAppend(frames: seq<Octets>, payload: Octets, i: nat)
    requires FIRST_TIME + i + |frames| <= MAX_TIME && forall f | f in frames + [payload] :: |f| <= MAX_PAYLOAD
    ensures Records(frames + [payload], i) == Records(frames, i) + Record(i + |frames|, payload)
  {
    hide Record;
    if frames == [] {
      assert frames + [payload] == [payload] && [payload][1..] == [];
    } else {
      assert (frames + [payload])[1..] == frames[1..] + [payload];
      RecordsAppend(frames[1..], payload, i + 1);
    }
  }

  /** The folding loop: it ends, and keeps the sum modulo 65535. */
  method FoldLoop(sum: nat) returns (total: nat)
    ensures total <= 0xFFFF && total % 0xFFFF == sum % 0xFFFF && (sum > 0 ==> total > 0)
    ensures total == Fold(sum)
  {
    total := sum;
    while total / 0x10000 != 0
      invariant Fold(total) == Fold(sum)
      decreases total
    {
      assert total == 0x10000 * (total / 0x10000) + total % 0x10000;
      total := total % 0x10000 + total / 0x10000;
    }
    FoldKeepsResidue(sum);
  }

  /**
   `pcap`; `None` stands for the exception `struct.pack` raises. A strict reader gets the payloads back in order, if
   no packet is too long.
   */
  method WritePcap(frames: seq<Octets>) returns (r: Option<Octets>)
    ensures r.Some? <==> Packable(frames)
    ensures r.Some? ==> ReadPcap(r.value) == if Whole(frames) then Some(frames) else None
  {
    hide Record, Records, ReadPcap, IpHeader, Udp, Little32, Fold, WordSum, GLOBAL_HEADER, Whole;
    var out := GLOBAL_HEADER;
    var i := 0;
    NoRecords();
    while i < |frames|
      invariant 0 <= i <= |frames| && Packable(frames[..i])
      invariant out == GLOBAL_HEADER + Records(frames[..i], 0)
    {
      var payload := frames[i];
      if |payload| > MAX_PAYLOAD || FIRST_TIME + i > MAX_TIME {
        return None;
      }
      OneMoreRecord(frames, i);
      var length := 28 + |payload|;
      var total := FoldLoop(WordSum(IpHeader(length, 0)));
      var pkt := ETHERNET + IpHeader(length, 0xFFFF - total) + Udp(payload);
      var header := Little32(FIRST_TIME + i) + Little32(0) + Little32(42 + |payload|) + Little32(42 + |payload|);
      RecordIs(i, payload, header, pkt);
      out := out + (header + pkt);
      i := i + 1;
    }
    assert frames[..i] == frames;
    PcapIsRead(frames);
    return Some(out);
  }

  lemma NoRecords()
    ensures Records([], 0) == []
  {
  }

  lemma OneMoreRecord(frames: seq<Octets>, i: nat)
    requires i < |frames| && Packable(frames[..i]) && |frames[i]| <= MAX_PAYLOAD && FIRST_TIME + i <= MAX_TIME
    ensures Packable(frames[..i + 1]) && Records(frames[..i + 1], 0) == Records(frames[..i], 0) + Record(i, frames[i])
  {
    assert frames[..i + 1] == frames[..i] + [frames[i]];
    RecordsAppend(frames[..i], frames[i], 0);
    hide Record, Records;
  }

  lemma GlobalHeaderIsRead()
    ensures var h := GLOBAL_HEADER;
            |h| == 24 && JoinLittle32(h[..4]) == 0xA1B2C3D4 && h[4..8] == [2, 0, 4, 0]
            && h[8..16] == [0, 0, 0, 0, 0, 0, 0, 0]
            && JoinLittle32(h[16..20]) == SNAPSHOT_LENGTH && JoinLittle32(h[20..24]) == 1
  {
    var h := GLOBAL_HEADER;
    assert h[..4] == [0xD4, 0xC3, 0xB2, 0xA1] && h[16..20] == [0xFF, 0xFF, 0, 0] && h[20..24] == [1, 0, 0, 0];
    assert h[4..8] == [2, 0, 4, 0] && h[8..16] == [0, 0, 0, 0, 0, 0, 0, 0];
    HeaderNumbers();
    hide JoinLittle32;
  }

  lemma HeaderNumbers()
    ensures JoinLittle32([0xD4, 0xC3, 0xB2, 0xA1]) == 0xA1B2C3D4
    ensures JoinLittle32([0xFF, 0xFF, 0, 0]) == SNAPSHOT_LENGTH && JoinLittle32([1, 0, 0, 0]) == 1
  {
  }

  lemma {:induction false} PcapIsRead(frames: seq<Octets>)
    requires Packable(frames)
    ensures ReadPcap(GLOBAL_HEADER + Records(frames, 0)) == if Whole(frames) then Some(frames) else None
  {
    hide Records, ReadRecords, Whole, JoinLittle32;
    var s := GLOBAL_HEADER + Records(frames, 0);
    RecordsAreRead(frames, 0);
    var h := GLOBAL_HEADER;
    assert s[24..] == Records(frames, 0);
    GlobalHeaderIsRead();
    hide GLOBAL_HEADER;
    assert s[..4] == h[..4] && s[4..8] == h[4..8] && s[8..16] == h[8..16];
    assert s[16..20] == h[16..20] && s[20..24] == h[20..24];
    assert ReadPcap(s) == ReadRecords(s[24..], 0);
  }

  /** The writer packs payloads of up to 65507 octets, and the longest 14 sizes make records its own header excludes. */
  lemma OverlongRecordExample(payload: Octets)
    requires |payload| == 65494
    ensures Packable([payload]) && ReadPcap(GLOBAL_HEADER + Records([payload], 0)) == None
  {
    PcapIsRead([payload]);
    assert payload in [payload];
  }

  lemma RecordIs(i: nat, payload: Octets, header: Octets, pkt: Octets)
    requires |payload| <= MAX_PAYLOAD && FIRST_TIME + i <= MAX_TIME && pkt == Packet(payload)
    requires header == Little32(FIRST_TIME + i) + Little32(0) + Little32(42 + |payload|) + Little32(42 + |payload|)
    ensures header + pkt == Record(i, payload)
  {
  }

  // ----- The datagrams that are captured -----

  /** `datagram("apdu", raw)`; `None` stands for a length field that does not fit. */
  function ApduDatagram(raw: Octets): Option<Octets> {
    var npdu := [NPDU_VERSION, 0x00] + raw;
    if |npdu| + 4 > 0xFFFF then None
    else Some([BVLC_TYPE, ORIGINAL_UNICAST] + BigEndian16(|npdu| + 4) + npdu)
  }

  /** The router's decoder reads the APDU back. */
  lemma DatagramIsAccepted(raw: Octets)
    requires ApduDatagram(raw).Some?
    ensures Accept(ApduDatagram(raw).value) ==
            Some(Received(ORIGINAL_UNICAST, Npdu(false, None, None, Apdu(raw))))
  {
  }
}
