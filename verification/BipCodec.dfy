/**
 The BVLC and NPDU codec of the BACnet/IP router (Annex J.2 and section 6.2 of
 ANSI/ASHRAE 135). A frame is read front to back here, section by section; the
 methods below do what the program does, with one running offset or one
 growing buffer.
 */
module BipCodec {
  import opened Wire

  const BVLC_TYPE: byte := 0x81
  const ORIGINAL_UNICAST: byte := 0x0A
  const ORIGINAL_BROADCAST: byte := 0x0B
  const FORWARDED: byte := 0x04

  const NPDU_VERSION: byte := 0x01
  const NETMSG: byte := 0x80
  const DNET: byte := 0x20
  const SNET: byte := 0x08
  const EXPECTING_REPLY: byte := 0x04

  datatype Dest = Dest(net: uint16, adr: Octets, hop: Option<byte>)
  datatype Source = Source(net: uint16, adr: Octets)
  datatype Body = NetworkMessage(kind: byte, data: Octets) | Apdu(octets: Octets)
  datatype Npdu = Npdu(expectingReply: bool, dest: Option<Dest>, source: Option<Source>, body: Body)

  // ----- BVLC -----

  /** The length field is truncated to 16 bits, as the program's shifts and masks do. */
  function BvlcWrap(fn: byte, payload: Octets): Octets {
    var length := 4 + |payload|;
    [BVLC_TYPE, fn, length / 0x100 % 0x100, length % 0x100] + payload
  }

  function ParseBvlc(data: Octets): Option<(byte, Octets)> {
    if |data| < 4 || data[0] != BVLC_TYPE then None
    else if Join16(data[2], data[3]) != |data| then None
    else Some((data[1], data[4..]))
  }

  lemma BvlcRoundTrip(fn: byte, payload: Octets)
    ensures ParseBvlc(BvlcWrap(fn, payload)) == Some((fn, payload)) <==> 4 + |payload| <= 0xFFFF
    ensures 4 + |payload| > 0xFFFF ==> ParseBvlc(BvlcWrap(fn, payload)) == None
  {
  }

  lemma BvlcParseWrap(data: Octets)
    requires ParseBvlc(data).Some?
    ensures BvlcWrap(ParseBvlc(data).value.0, ParseBvlc(data).value.1) == data
  {
  }

  // ----- NPDU, encoding -----

  /** What `struct.pack(">HB", ...)` accepts: address lengths that fit one octet. */
  predicate Encodable(x: Npdu) {
    && (x.dest.Some? ==> |x.dest.value.adr| <= 0xFF)
    && (x.source.Some? ==> |x.source.value.adr| <= 0xFF)
  }

  type SendableNpdu = x: Npdu | Encodable(x) witness Npdu(false, None, None, Apdu([]))

  function HopOctet(d: Dest): byte {
    if d.hop.None? then 255 else d.hop.value
  }

  function DestOctets(d: Dest): Octets
    requires |d.adr| <= 0xFF
  {
    BigEndian16(d.net) + [|d.adr|] + d.adr + [HopOctet(d)]
  }

  function SourceOctets(s: Source): Octets
    requires |s.adr| <= 0xFF
  {
    BigEndian16(s.net) + [|s.adr|] + s.adr
  }

  function BodyOctets(b: Body): Octets {
    match b
    case NetworkMessage(kind, data) => [kind] + data
    case Apdu(octets) => octets
  }

  function Control(x: Npdu): byte {
    (if x.body.NetworkMessage? then NETMSG else 0) + (if x.dest.Some? then DNET else 0)
    + (if x.source.Some? then SNET else 0) + (if x.expectingReply then EXPECTING_REPLY else 0)
  }

  function DestPart(x: Npdu): Octets
    requires Encodable(x)
  {
    if x.dest.Some? then DestOctets(x.dest.value) else []
  }

  function SourcePart(x: Npdu): Octets
    requires Encodable(x)
  {
    if x.source.Some? then SourceOctets(x.source.value) else []
  }

  function Encode(x: Npdu): Octets
    requires Encodable(x)
  {
    [NPDU_VERSION, Control(x)] + DestPart(x) + SourcePart(x) + BodyOctets(x.body)
  }

  lemma EncodeSections(x: Npdu)
    requires Encodable(x)
    ensures |Encode(x)| >= 2 && Encode(x)[..2] == [NPDU_VERSION, Control(x)]
    ensures Encode(x)[2..] == DestPart(x) + (SourcePart(x) + BodyOctets(x.body))
  {
  }

  /** `encode_npdu`: a buffer that grows, with the control octet filled in late. */
  method EncodeNpdu(x: Npdu) returns (buffer: Octets)
    requires Encodable(x)
    ensures buffer == Encode(x)
  {
    var control := 0;
    if x.body.NetworkMessage? {
      control := control + NETMSG;
    }
    if x.expectingReply {
      control := control + EXPECTING_REPLY;
    }
    buffer := [NPDU_VERSION, 0];
    if x.dest.Some? {
      var d := x.dest.value;
      control := control + DNET;
      buffer := buffer + (BigEndian16(d.net) + [|d.adr|] + d.adr);
      buffer := buffer + [HopOctet(d)];
    }
    assert buffer == [NPDU_VERSION, 0] + DestPart(x);
    if x.source.Some? {
      var s := x.source.value;
      control := control + SNET;
      buffer := buffer + (BigEndian16(s.net) + [|s.adr|] + s.adr);
    }
    assert buffer == [NPDU_VERSION, 0] + DestPart(x) + SourcePart(x);
    buffer := SetControl(buffer, control, DestPart(x), SourcePart(x));
    match x.body {
      case NetworkMessage(kind, data) =>
        buffer := buffer + ([kind] + data);
      case Apdu(octets) =>
        buffer := buffer + octets;
    }
  }

  /** `body[1] = control`, with what follows the two header octets unchanged. */
  function SetControl(buffer: Octets, control: byte, ghost d: Octets, ghost s: Octets): (r: Octets)
    requires buffer == [NPDU_VERSION, 0] + d + s
    ensures r == [NPDU_VERSION, control] + d + s
  {
    buffer[1 := control]
  }

  // ----- NPDU, decoding -----

  /** Reads DNET, DLEN, DADR and the hop count; the rest of the input follows. */
  function TakeDest(p: Octets): Option<(Dest, Octets)> {
    if |p| < 3 then None
    else
      var n: int := p[2];
      if |p| <= 3 + n then None
      else Some((Dest(Join16(p[0], p[1]), p[3..3 + n], Some(p[3 + n])), p[4 + n..]))
  }

  function TakeSource(p: Octets): Option<(Source, Octets)> {
    if |p| < 3 then None
    else
      var n: int := p[2];
      if |p| < 3 + n then None
      else Some((Source(Join16(p[0], p[1]), p[3..3 + n]), p[3 + n..]))
  }

  function DestSection(control: byte, p: Octets): Option<(Option<Dest>, Octets)> {
    if !Bit(control, DNET) then Some((None, p))
    else match TakeDest(p)
         case None => None
         case Some((d, rest)) => Some((Some(d), rest))
  }

  function SourceSection(control: byte, p: Octets): Option<(Option<Source>, Octets)> {
    if !Bit(control, SNET) then Some((None, p))
    else match TakeSource(p)
         case None => None
         case Some((s, rest)) => Some((Some(s), rest))
  }

  function BodySection(control: byte, p: Octets): Option<Body> {
    if !Bit(control, NETMSG) then Some(Apdu(p))
    else if p == [] then None
    else Some(NetworkMessage(p[0], p[1..]))
  }

  function Decode(p: Octets): Option<Npdu> {
    if |p| < 2 || p[0] != NPDU_VERSION then None
    else match DestSection(p[1], p[2..])
         case None => None
         case Some((dest, p1)) =>
           match SourceSection(p[1], p1)
           case None => None
           case Some((source, p2)) =>
             match BodySection(p[1], p2)
             case None => None
             case Some(body) => Some(Npdu(Bit(p[1], EXPECTING_REPLY), dest, source, body))
  }

  /** Reading at an offset into the payload is reading the rest of it. */
  lemma TakeDestAt(p: Octets, off: nat)
    requires off + 3 <= |p|
    ensures var n: int := p[off + 2];
            TakeDest(p[off..]) == if off + 3 + n >= |p| then None
            else Some((Dest(Join16(p[off], p[off + 1]), p[off + 3..off + 3 + n], Some(p[off + 3 + n])),
                       p[off + 4 + n..]))
  {
    var n: int := p[off + 2];
    if off + 3 + n < |p| {
      assert p[off..][3..3 + n] == p[off + 3..off + 3 + n];
      assert p[off..][4 + n..] == p[off + 4 + n..];
    }
  }

  lemma TakeSourceAt(p: Octets, off: nat)
    requires off + 3 <= |p|
    ensures var n: int := p[off + 2];
            TakeSource(p[off..]) == if off + 3 + n > |p| then None
            else Some((Source(Join16(p[off], p[off + 1]), p[off + 3..off + 3 + n]), p[off + 3 + n..]))
  {
    var n: int := p[off + 2];
    if off + 3 + n <= |p| {
      assert p[off..][3..3 + n] == p[off + 3..off + 3 + n];
      assert p[off..][3 + n..] == p[off + 3 + n..];
    }
  }

  lemma DestSectionAt(control: byte, p: Octets, off: nat)
    requires off <= |p|
    ensures DestSection(control, p[off..]) ==
            if !Bit(control, DNET) then Some((None, p[off..]))
            else if off + 3 > |p| then None
            else
              var n: int := p[off + 2];
              if off + 3 + n >= |p| then None
              else Some((Some(Dest(Join16(p[off], p[off + 1]), p[off + 3..off + 3 + n], Some(p[off + 3 + n]))),
                         p[off + 4 + n..]))
  {
    hide Bit, Join16;
    if off + 3 <= |p| {
      TakeDestAt(p, off);
      hide TakeDest;
    }
  }

  lemma SourceSectionAt(control: byte, p: Octets, off: nat)
    requires off <= |p|
    ensures SourceSection(control, p[off..]) ==
            if !Bit(control, SNET) then Some((None, p[off..]))
            else if off + 3 > |p| then None
            else
              var n: int := p[off + 2];
              if off + 3 + n > |p| then None
              else Some((Some(Source(Join16(p[off], p[off + 1]), p[off + 3..off + 3 + n])), p[off + 3 + n..]))
  {
    hide Bit, Join16;
    if off + 3 <= |p| {
      TakeSourceAt(p, off);
      hide TakeSource;
    }
  }

  /** `decode_npdu`: one running offset into the payload. */
  method DecodeNpdu(payload: Octets) returns (info: Option<Npdu>)
    ensures info == Decode(payload)
  {
    hide DestSection, SourceSection, Join16, Bit;
    if |payload| < 2 || payload[0] != NPDU_VERSION {
      return None;
    }
    var control := payload[1];
    var off := 2;
    var dest: Option<Dest> := None;
    var source: Option<Source> := None;
    DestSectionAt(control, payload, off);
    if Bit(control, DNET) {
      if off + 3 > |payload| {
        return None;
      }
      var dnet := Join16(payload[off], payload[off + 1]);
      var dlen := payload[off + 2];
      off := off + 3;
      if off + dlen > |payload| {
        return None;
      }
      var dadr := payload[off..off + dlen];
      off := off + dlen;
      if off >= |payload| {
        return None;
      }
      dest := Some(Dest(dnet, dadr, Some(payload[off])));
      off := off + 1;
    }
    assert DestSection(control, payload[2..]) == Some((dest, payload[off..]));
    ghost var p1 := payload[off..];
    SourceSectionAt(control, payload, off);
    if Bit(control, SNET) {
      if off + 3 > |payload| {
        return None;
      }
      var snet := Join16(payload[off], payload[off + 1]);
      var slen := payload[off + 2];
      off := off + 3;
      if off + slen > |payload| {
        return None;
      }
      source := Some(Source(snet, payload[off..off + slen]));
      off := off + slen;
    }
    ghost var p2 := payload[off..];
    assert SourceSection(control, p1) == Some((source, p2));
    if Bit(control, NETMSG) {
      if off >= |payload| {
        return None;
      }
      assert p2[1..] == payload[off + 1..];
      return Some(Npdu(Bit(control, EXPECTING_REPLY), dest, source, NetworkMessage(payload[off], payload[off + 1..])));
    }
    return Some(Npdu(Bit(control, EXPECTING_REPLY), dest, source, Apdu(payload[off..])));
  }

  // ----- NPDU, the two directions -----

  /** An absent hop count is sent as 255. */
  function Normal(x: Npdu): Npdu {
    if x.dest.None? then x
    else x.(dest := Some(x.dest.value.(hop := Some(HopOctet(x.dest.value)))))
  }

  /** `c & 0xAC`: the four control bits this codec reads and writes. */
  function Known(c: byte): byte {
    (if Bit(c, NETMSG) then NETMSG else 0) + (if Bit(c, DNET) then DNET else 0)
    + (if Bit(c, SNET) then SNET else 0) + (if Bit(c, EXPECTING_REPLY) then EXPECTING_REPLY else 0)
  }

  lemma ControlBits(x: Npdu)
    ensures Bit(Control(x), NETMSG) == x.body.NetworkMessage?
    ensures Bit(Control(x), DNET) == x.dest.Some?
    ensures Bit(Control(x), SNET) == x.source.Some?
    ensures Bit(Control(x), EXPECTING_REPLY) == x.expectingReply
  {
  }

  lemma TakeDestPrinted(d: Dest, rest: Octets)
    requires |d.adr| <= 0xFF
    ensures TakeDest(DestOctets(d) + rest) == Some((d.(hop := Some(HopOctet(d))), rest))
  {
    hide Join16, BigEndian16;
    var p, n := DestOctets(d) + rest, |d.adr|;
    SplitJoin16(d.net);
    assert p[0] == BigEndian16(d.net)[0] && p[1] == BigEndian16(d.net)[1] && p[2] == n;
    assert p[3..3 + n] == d.adr && p[3 + n] == HopOctet(d);
    assert p[4 + n..] == rest;
  }

  lemma TakeSourcePrinted(s: Source, rest: Octets)
    requires |s.adr| <= 0xFF
    ensures TakeSource(SourceOctets(s) + rest) == Some((s, rest))
  {
    hide Join16, BigEndian16;
    var p, n := SourceOctets(s) + rest, |s.adr|;
    SplitJoin16(s.net);
    assert p[0] == BigEndian16(s.net)[0] && p[1] == BigEndian16(s.net)[1] && p[2] == n;
    assert p[3..3 + n] == s.adr;
    assert p[3 + n..] == rest;
  }

  lemma DecodeEncode(x: Npdu)
    requires Encodable(x)
    ensures Decode(Encode(x)) == Some(Normal(x))
  {
    hide Encode, Control, DestPart, SourcePart, BodyOctets, DestSection, SourceSection, BodySection, Bit;
    var p := Encode(x);
    var p2 := BodyOctets(x.body);
    ControlBits(x);
    EncodeSections(x);
    assert p[0] == p[..2][0] && p[1] == p[..2][1];
    DestPartIsRead(x, SourcePart(x) + p2);
    SourcePartIsRead(x, p2);
    BodyIsRead(x);
  }

  lemma BodyIsRead(x: Npdu)
    ensures BodySection(Control(x), BodyOctets(x.body)) == Some(x.body)
  {
    ControlBits(x);
    hide Bit, Control;
    if x.body.NetworkMessage? {
      assert ([x.body.kind] + x.body.data)[1..] == x.body.data;
    }
  }

  lemma DestPartIsRead(x: Npdu, rest: Octets)
    requires Encodable(x)
    ensures DestSection(Control(x), DestPart(x) + rest) == Some((Normal(x).dest, rest))
  {
    ControlBits(x);
    hide Control, Bit, TakeDest, DestOctets;
    if x.dest.Some? {
      TakeDestPrinted(x.dest.value, rest);
    } else {
      assert DestPart(x) + rest == rest;
    }
  }

  lemma SourcePartIsRead(x: Npdu, rest: Octets)
    requires Encodable(x)
    ensures SourceSection(Control(x), SourcePart(x) + rest) == Some((x.source, rest))
  {
    ControlBits(x);
    hide Control, Bit, TakeSource, SourceOctets;
    if x.source.Some? {
      TakeSourcePrinted(x.source.value, rest);
    } else {
      assert SourcePart(x) + rest == rest;
    }
  }

  lemma TakeDestPrints(p: Octets)
    requires TakeDest(p).Some?
    ensures var (d, rest) := TakeDest(p).value; |d.adr| <= 0xFF && d.hop.Some? && DestOctets(d) + rest == p
  {
    hide BigEndian16, Join16;
    var n: int := p[2];
    var d := TakeDest(p).value.0;
    Join16Split(p[0], p[1]);
    assert TakeDest(p) == Some((d, p[4 + n..]));
    assert DestOctets(d) == [p[0], p[1], p[2]] + p[3..3 + n] + [p[3 + n]];
  }

  lemma TakeSourcePrints(p: Octets)
    requires TakeSource(p).Some?
    ensures var (s, rest) := TakeSource(p).value; |s.adr| <= 0xFF && SourceOctets(s) + rest == p
  {
    hide BigEndian16, Join16;
    var n: int := p[2];
    var s := TakeSource(p).value.0;
    Join16Split(p[0], p[1]);
    assert TakeSource(p) == Some((s, p[3 + n..]));
    assert SourceOctets(s) == [p[0], p[1], p[2]] + p[3..3 + n];
  }

  lemma EncodeDecode(p: Octets)
    requires Decode(p).Some?
    ensures Encodable(Decode(p).value) && Normal(Decode(p).value) == Decode(p).value
    ensures |p| >= 2 && Encode(Decode(p).value) == p[1 := Known(p[1])]
  {
    var x := Decode(p).value;
    SectionsArePrinted(p);
    EncodeSections(x);
    hide Encode, Decode, DestPart, SourcePart, BodyOctets;
    var q := p[1 := Known(p[1])];
    assert q[2..] == p[2..];
    assert Encode(x)[..2] == q[..2];
    assert Encode(x) == Encode(x)[..2] + Encode(x)[2..] && q == q[..2] + q[2..];
  }

  lemma SectionsArePrinted(p: Octets)
    requires Decode(p).Some?
    ensures var x := Decode(p).value;
            |p| >= 2 && p[0] == NPDU_VERSION && Encodable(x) && Normal(x) == x && Control(x) == Known(p[1])
            && p[2..] == DestPart(x) + (SourcePart(x) + BodyOctets(x.body))
  {
    hide DestSection, SourceSection, BodySection, TakeDest, TakeSource, BodyOctets, Bit, DestOctets, SourceOctets;
    var x := Decode(p).value;
    var p1 := DestSection(p[1], p[2..]).value.1;
    var p2 := SourceSection(p[1], p1).value.1;
    DestSectionPrints(p[1], p[2..]);
    SourceSectionPrints(p[1], p1);
    BodySectionPrints(p[1], p2);
    assert DestPart(x) + p1 == p[2..];
    assert SourcePart(x) + p2 == p1;
    assert BodyOctets(x.body) == p2;
  }

  lemma DestSectionPrints(control: byte, p: Octets)
    requires DestSection(control, p).Some?
    ensures var (dest, rest) := DestSection(control, p).value;
            dest.Some? == Bit(control, DNET)
            && match dest
               case None => p == rest
               case Some(d) => |d.adr| <= 0xFF && d.hop.Some? && DestOctets(d) + rest == p
  {
    hide TakeDest, DestOctets, Bit;
    if TakeDest(p).Some? { TakeDestPrints(p); }
  }

  lemma SourceSectionPrints(control: byte, p: Octets)
    requires SourceSection(control, p).Some?
    ensures var (source, rest) := SourceSection(control, p).value;
            source.Some? == Bit(control, SNET)
            && match source
               case None => p == rest
               case Some(s) => |s.adr| <= 0xFF && SourceOctets(s) + rest == p
  {
    hide TakeSource, SourceOctets, Bit;
    if TakeSource(p).Some? { TakeSourcePrints(p); }
  }

  lemma BodySectionPrints(control: byte, p: Octets)
    requires BodySection(control, p).Some?
    ensures var body := BodySection(control, p).value;
            body.NetworkMessage? == Bit(control, NETMSG) && BodyOctets(body) == p
  {
  }

  /**
   The decoder is pinned down by the encoder alone: a payload decodes to `x`
   exactly when `x` is encodable with an explicit hop count and the payload,
   with its unread control bits cleared, is the encoding of `x`.
   */
  lemma DecodeIffEncoded(p: Octets, x: Npdu)
    ensures Decode(p) == Some(x) <==>
            Encodable(x) && Normal(x) == x && |p| >= 2 && p[1 := Known(p[1])] == Encode(x)
  {
    if Decode(p) == Some(x) {
      EncodeDecode(p);
    }
    if Encodable(x) && Normal(x) == x && |p| >= 2 && p[1 := Known(p[1])] == Encode(x) {
      DecodeEncode(x);
      IgnoredBits(p);
    }
  }

  lemma IgnoredBits(p: Octets)
    requires |p| >= 2
    ensures Decode(p[1 := Known(p[1])]) == Decode(p)
  {
    var q := p[1 := Known(p[1])];
    assert q[2..] == p[2..];
    var c := p[1];
    assert Bit(Known(c), NETMSG) == Bit(c, NETMSG) && Bit(Known(c), DNET) == Bit(c, DNET);
    assert Bit(Known(c), SNET) == Bit(c, SNET) && Bit(Known(c), EXPECTING_REPLY) == Bit(c, EXPECTING_REPLY);
  }

  // ----- The order of the fields -----

  /** The order of section 6.2.2: the hop count stands after the source specifier. */
  function StandardEncode(x: Npdu): Octets
    requires Encodable(x)
  {
    var hop := if x.dest.Some? then [HopOctet(x.dest.value)] else [];
    var address := if x.dest.Some? then DestOctets(x.dest.value)[..|x.dest.value.adr| + 3] else [];
    [NPDU_VERSION, Control(x)] + address + SourcePart(x) + hop + BodyOctets(x.body)
  }

  /**
   This codec puts the hop count before the source specifier. It meets the
   standard's order unless a frame carries both specifiers, the octets of a
   source specifier that only repeats the hop count apart.
   */
  lemma FieldOrderExactly(x: Npdu)
    requires Encodable(x)
    ensures Encode(x) == StandardEncode(x) <==>
            (x.dest.Some? && x.source.Some? ==>
             forall o | o in SourceOctets(x.source.value) :: o == HopOctet(x.dest.value))
  {
    var body := BodyOctets(x.body);
    if x.dest.Some? {
      var hop := HopOctet(x.dest.value);
      var source := SourcePart(x);
      var before := [NPDU_VERSION, Control(x)] + DestOctets(x.dest.value)[..|x.dest.value.adr| + 3];
      assert Encode(x) == before + ([hop] + source) + body;
      assert StandardEncode(x) == before + (source + [hop]) + body;
      SameMiddle(before, [hop] + source, source + [hop], body);
      Rotated(hop, source);
    } else {
      assert Encode(x) == StandardEncode(x);
    }
  }

  lemma SameMiddle(before: Octets, a: Octets, b: Octets, after: Octets)
    requires |a| == |b|
    ensures before + a + after == before + b + after <==> a == b
  {
    assert (before + a + after)[|before|..|before| + |a|] == a;
    assert (before + b + after)[|before|..|before| + |b|] == b;
  }

  /** Moving an octet past a sequence shows unless the sequence only repeats it. */
  lemma Rotated(o: byte, s: Octets)
    ensures [o] + s == s + [o] <==> forall x | x in s :: x == o
  {
    if [o] + s == s + [o] {
      RotatedAt(o, s, |s|);
    }
    if forall x | x in s :: x == o {
      assert forall i :: 0 <= i < |s| ==> s[i] in s;
      assert forall i :: 0 <= i <= |s| ==> ([o] + s)[i] == o && (s + [o])[i] == o;
    }
  }

  lemma {:induction false} RotatedAt(o: byte, s: Octets, n: nat)
    requires [o] + s == s + [o] && n <= |s|
    ensures forall i :: 0 <= i < n ==> s[i] == o
  {
    if n > 0 {
      RotatedAt(o, s, n - 1);
      assert ([o] + s)[n - 1] == (s + [o])[n - 1];
    }
  }

  // ----- B/IP addresses -----

  type IPv4 = a: Octets | |a| == 4 witness [0, 0, 0, 0]

  datatype Endpoint = Endpoint(ip: IPv4, port: uint16)

  function Mac(e: Endpoint): (m: Octets)
    ensures |m| == 6
  {
    e.ip + BigEndian16(e.port)
  }

  function MacToEndpoint(mac: Octets): Option<Endpoint> {
    if |mac| != 6 then None else Some(Endpoint(mac[..4], Join16(mac[4], mac[5])))
  }

  lemma MacRoundTrip(e: Endpoint, mac: Octets)
    ensures MacToEndpoint(mac) == Some(e) <==> mac == Mac(e)
  {
  }
}
