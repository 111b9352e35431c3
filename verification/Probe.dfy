/** The I-Am detector of the smoke-test probe, a second reader of the router's frames. */
module Probe {
  import opened Wire
  import opened BipCodec
  import opened Router

  /** The payload with the network-message bit of its control octet cleared. */
  function AsApdu(p: Octets): Octets {
    if |p| < 2 then p else p[1 := p[1] % 0x80]
  }

  /** Unconfirmed-Request, service I-Am. */
  predicate IAmOctets(apdu: Octets) {
    |apdu| >= 2 && apdu[0] == 0x10 && apdu[1] == 0x00
  }

  predicate StartsIAm(npdu: Option<Npdu>) {
    npdu.Some? && npdu.value.body.Apdu? && IAmOctets(npdu.value.body.octets)
  }

  function NpduOffset(fn: byte): nat {
    if fn == FORWARDED then 10 else 4
  }

  /** What the probe looks for, in terms of the router's decoder. */
  predicate CarriesIAm(data: Octets) {
    && |data| >= 4 && data[0] == BVLC_TYPE
    && (data[1] == ORIGINAL_UNICAST || data[1] == ORIGINAL_BROADCAST || data[1] == FORWARDED)
    && |data| >= NpduOffset(data[1])
    && StartsIAm(Decode(AsApdu(data[NpduOffset(data[1])..])))
  }

  lemma ClearedControl(c: byte)
    ensures !Bit(c % 0x80, NETMSG) && Bit(c % 0x80, DNET) == Bit(c, DNET) && Bit(c % 0x80, SNET) == Bit(c, SNET)
  {
    var q, d := c / 0x80, c % 0x80;
    assert c == 0x80 * q + d;
    assert c / 0x20 == 4 * q + d / 0x20 && c / 0x08 == 16 * q + d / 0x08;
  }

  /** The decoder on a payload at an offset, its network-message bit ignored. */
  lemma DecodeAt(data: Octets, off: nat)
    requires off + 2 <= |data|
    ensures StartsIAm(Decode(AsApdu(data[off..]))) <==>
            data[off] == NPDU_VERSION
            && DestSection(data[off + 1], data[off + 2..]).Some?
            && var p := DestSection(data[off + 1], data[off + 2..]).value.1;
               SourceSection(data[off + 1], p).Some?
               && IAmOctets(SourceSection(data[off + 1], p).value.1)
  {
    ClearedControl(data[off + 1]);
    var p := AsApdu(data[off..]);
    assert p[2..] == data[off + 2..];
    hide TakeDest, TakeSource, AsApdu, Bit;
  }

  /**
   The probe ignores the BVLC length field and the network-message bit;
   otherwise it finds an I-Am exactly where the router's decoder does.
   */
  method LooksLikeIAm(data: Octets) returns (r: bool)
    ensures r <==> CarriesIAm(data)
  {
    hide Decode, DestSection, SourceSection, Bit, AsApdu, StartsIAm, Join16;
    if |data| < 8 {
      ShortIsNoIAm(data);
      return false;
    }
    if data[0] != BVLC_TYPE {
      return false;
    }
    if data[1] != ORIGINAL_UNICAST && data[1] != ORIGINAL_BROADCAST && data[1] != FORWARDED {
      return false;
    }
    var off := 4;
    if data[1] == FORWARDED {
      if |data| < 12 {
        ShortIsNoIAm(data);
        return false;
      }
      off := 10;
    }
    DecodeAt(data, off);
    if off + 2 > |data| || data[off] != NPDU_VERSION {
      return false;
    }
    var ctrl := data[off + 1];
    var apduOff := off + 2;
    ghost var p := data[apduOff..];
    assert CarriesIAm(data) <==> StartsIAm(Decode(AsApdu(data[off..])));
    hide CarriesIAm;
    DestSectionAt(ctrl, data, apduOff);
    if Bit(ctrl, DNET) {
      if apduOff + 3 > |data| {
        return false;
      }
      var dlen := data[apduOff + 2];
      apduOff := apduOff + 3 + dlen;
      if apduOff >= |data| {
        return false;
      }
      apduOff := apduOff + 1;
    }
    assert DestSection(ctrl, p).value.1 == data[apduOff..];
    SourceSectionAt(ctrl, data, apduOff);
    if Bit(ctrl, SNET) {
      if apduOff + 3 > |data| {
        return false;
      }
      var slen := data[apduOff + 2];
      apduOff := apduOff + 3 + slen;
    }
    if apduOff + 2 > |data| {
      return false;
    }
    return data[apduOff] == 0x10 && data[apduOff + 1] == 0x00;
  }

  lemma ShortIsNoIAm(data: Octets)
    requires |data| < 4 || |data| < NpduOffset(data[1]) + 4
    ensures !CarriesIAm(data)
  {
  }

  predicate NetworkMessageBit(data: Octets) {
    |data| >= 2 && |data| >= NpduOffset(data[1]) + 2 && Bit(data[NpduOffset(data[1]) + 1], NETMSG)
  }

  lemma ClearBitIsNoChange(p: Octets)
    requires |p| >= 2 && !Bit(p[1], NETMSG)
    ensures AsApdu(p) == p
  {
  }

  lemma SetBitIsNoApdu(p: Octets)
    requires |p| >= 2 && Bit(p[1], NETMSG)
    ensures !StartsIAm(Decode(p))
  {
  }

  /**
   On every datagram: the router finds an I-Am exactly where the probe does, the BVLC is sound and the network-message
   bit clear.
   */
  lemma ProbeAgreesWithRouter(data: Octets)
    ensures Accept(data).Some? && StartsIAm(Some(Accept(data).value.npdu)) <==>
            CarriesIAm(data) && !NetworkMessageBit(data) && ParseBvlc(data).Some?
  {
    hide Decode, CarriesIAm, NetworkMessageBit, StartsIAm;
    if ParseBvlc(data).Some? {
      SoundDatagramsAgree(data);
    }
  }

  lemma SoundDatagramsAgree(data: Octets)
    requires ParseBvlc(data).Some?
    ensures Accept(data).Some? && StartsIAm(Some(Accept(data).value.npdu)) <==>
            CarriesIAm(data) && !NetworkMessageBit(data)
  {
    assert !StartsIAm(None);
    hide Decode, AsApdu, StartsIAm, Bit;
    var off := NpduOffset(data[1]);
    if |data| >= off + 2 {
      var p := data[off..];
      assert data[1] == FORWARDED ==> data[4..][6..] == p;
      if Bit(p[1], NETMSG) {
        SetBitIsNoApdu(p);
      } else {
        ClearBitIsNoChange(p);
      }
      assert NetworkMessageBit(data) == Bit(p[1], NETMSG);
      if data[1] == ORIGINAL_UNICAST || data[1] == ORIGINAL_BROADCAST || data[1] == FORWARDED {
        AcceptDecodes(data, p);
      }
    } else {
      ShortIsNotAccepted(data);
    }
  }

  /** They differ: a network message of type 0x10 that the probe takes for an I-Am. */
  lemma NetworkMessageExample()
    ensures var data := [0x81, 0x0A, 0x00, 0x08, 0x01, 0x80, 0x10, 0x00];
            CarriesIAm(data)
            && Accept(data) == Some(Received(ORIGINAL_UNICAST, Npdu(false, None, None, NetworkMessage(0x10, [0x00]))))
  {
    var data: Octets := [0x81, 0x0A, 0x00, 0x08, 0x01, 0x80, 0x10, 0x00];
    assert data[4..] == [0x01, 0x80, 0x10, 0x00];
    assert data[4..][2..] == [0x10, 0x00] && [0x10, 0x00][1..] == [0x00];
    assert AsApdu(data[4..]) == [0x01, 0x00, 0x10, 0x00] && [0x01, 0x00, 0x10, 0x00][2..] == [0x10, 0x00];
    assert !Bit(0x80, DNET) && !Bit(0x80, SNET) && Bit(0x80, NETMSG) && !Bit(0x80, EXPECTING_REPLY);
  }

  /** They differ: a datagram whose BVLC length is one too many, which the router drops. */
  lemma WrongLengthExample()
    ensures var data := [0x81, 0x0A, 0x00, 0x09, 0x01, 0x00, 0x10, 0x00]; CarriesIAm(data) && Accept(data) == None
  {
    var data: Octets := [0x81, 0x0A, 0x00, 0x09, 0x01, 0x00, 0x10, 0x00];
    assert AsApdu(data[4..]) == [0x01, 0x00, 0x10, 0x00] && [0x01, 0x00, 0x10, 0x00][2..] == [0x10, 0x00];
    assert !Bit(0x00, DNET) && !Bit(0x00, SNET) && !Bit(0x00, NETMSG);
  }

  lemma AcceptDecodes(data: Octets, p: Octets)
    requires ParseBvlc(data).Some? && |data| >= NpduOffset(data[1]) && p == data[NpduOffset(data[1])..]
    requires data[1] == ORIGINAL_UNICAST || data[1] == ORIGINAL_BROADCAST || data[1] == FORWARDED
    ensures Decode(p) == if Accept(data).Some? then Some(Accept(data).value.npdu) else None
  {
  }

  lemma ShortIsNotAccepted(data: Octets)
    requires ParseBvlc(data).Some? && |data| < NpduOffset(data[1]) + 2
    ensures Accept(data) == None && !CarriesIAm(data)
  {
  }
}
