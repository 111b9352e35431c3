/**
 Tag tokens of the application layer (section 20.2.1 of ANSI/ASHRAE 135) and
 the small readers the Go service handlers share. A payload is a sequence of
 tokens and an offset counts tokens; how a token is laid out in octets belongs
 to the upstream encoding package.
 */
module Tags {
  import opened Wire

  const UINT32: nat := 0x1_0000_0000

  /** A ten-bit type and a 22-bit instance when it comes from the wire. */
  datatype ObjectKey = ObjectKey(kind: nat, instance: nat) {
    predicate HasIdentifier() {
      kind < 0x400 && instance < 0x40_0000
    }
  }

  datatype AppValue =
    | AppNull
    | AppReal(bits: nat)
    | AppEnum(n: nat)
    | AppUnsigned(n: nat)
    | AppInteger(i: int)
    | AppString(text: string)
    | AppBits(flags: seq<bool>)
    | AppIdentifier(key: ObjectKey)
    | AppDate(date: int)
    | AppTime(time: int)

  datatype Token = Open(n: nat) | Close(n: nat) | Context(n: nat, data: Octets) | App(v: AppValue)

  // ----- Unsigned integers -----

  /** The 32-bit value of octets of any number; high octets are shifted out. */
  function JoinUnsigned(data: Octets): uint32 {
    if data == [] then 0
    else (JoinUnsigned(data[..|data| - 1]) as int * 0x100 + data[|data| - 1]) % 0x1_0000_0000
  }

  /** The shortest encoding, at least one octet (section 20.2.4). */
  function UnsignedOctets(n: nat): Octets {
    if n < 0x100 then [n] else UnsignedOctets(n / 0x100) + [n % 0x100]
  }

  lemma {:induction false} UnsignedRoundTrip(n: uint32)
    ensures JoinUnsigned(UnsignedOctets(n)) == n
  {
    var data := UnsignedOctets(n);
    if n < 0x100 {
      assert data[..|data| - 1] == [];
    } else {
      assert data[..|data| - 1] == UnsignedOctets(n / 0x100);
      UnsignedRoundTrip(n / 0x100);
    }
  }

  /** `decodeContextUnsigned`. */
  method DecodeContextUnsigned(tokens: seq<Token>, offset: nat, tag: nat) returns (r: Option<(uint32, nat)>)
    ensures r == if offset < |tokens| && tokens[offset].Context? && tokens[offset].n == tag
                 then Some((JoinUnsigned(tokens[offset].data), offset + 1)) else None
  {
    if offset >= |tokens| || !tokens[offset].Context? || tokens[offset].n != tag {
      return None;
    }
    var value := tokens[offset].data;
    var n: uint32 := 0;
    for i := 0 to |value|
      invariant n == JoinUnsigned(value[..i])
    {
      assert value[..i + 1][..i] == value[..i];
      n := (n as int * 0x100 + value[i]) % 0x1_0000_0000;
    }
    assert value[..|value|] == value;
    return Some((n, offset + 1));
  }

  // ----- Object identifiers -----

  function BigEndian32(raw: nat): (r: Octets)
    requires raw < UINT32
    ensures |r| == 4
  {
    [raw / 0x100 / 0x100 / 0x100, raw / 0x100 / 0x100 % 0x100, raw / 0x100 % 0x100, raw % 0x100]
  }

  function Join32(data: Octets): (r: nat)
    requires |data| == 4
    ensures r < UINT32
  {
    var (a: nat, b: nat, c: nat, d: nat) := (data[0], data[1], data[2], data[3]);
    ((a * 0x100 + b) * 0x100 + c) * 0x100 + d
  }

  lemma Join32RoundTrip(data: Octets)
    requires |data| == 4
    ensures BigEndian32(Join32(data)) == data
  {
    var (a: nat, b: nat, c: nat, d: nat) := (data[0], data[1], data[2], data[3]);
    var raw := Join32(data);
    assert raw == ((a * 0x100 + b) * 0x100 + c) * 0x100 + d;
    assert raw / 0x100 == (a * 0x100 + b) * 0x100 + c && raw % 0x100 == d;
    assert raw / 0x100 / 0x100 == a * 0x100 + b && raw / 0x100 % 0x100 == c;
    assert raw / 0x100 / 0x100 / 0x100 == a && raw / 0x100 / 0x100 % 0x100 == b;
  }

  lemma BigEndian32RoundTrip(raw: nat)
    requires raw < UINT32
    ensures Join32(BigEndian32(raw)) == raw
  {
    var b, c := raw / 0x100, raw / 0x100 / 0x100;
    assert raw == b * 0x100 + raw % 0x100 && b == c * 0x100 + b % 0x100;
  }

  function KeyOctets(key: ObjectKey): (r: Octets)
    requires key.HasIdentifier()
    ensures |r| == 4
  {
    BigEndian32(key.kind * 0x40_0000 + key.instance)
  }

  function KeyOf(data: Octets): (r: ObjectKey)
    requires |data| == 4
    ensures r.HasIdentifier()
  {
    ObjectKey(Join32(data) / 0x40_0000, Join32(data) % 0x40_0000)
  }

  lemma KeyRoundTrip(key: ObjectKey)
    requires key.HasIdentifier()
    ensures KeyOf(KeyOctets(key)) == key
  {
    BigEndian32RoundTrip(key.kind * 0x40_0000 + key.instance);
    hide BigEndian32, Join32;
  }

  lemma KeyOfRoundTrip(data: Octets)
    requires |data| == 4
    ensures KeyOctets(KeyOf(data)) == data
  {
    Join32RoundTrip(data);
    hide BigEndian32, Join32;
  }

  /** The type is the upper ten bits of the four octets, the instance the other 22. */
  lemma KeyInNumbers(a: byte, b: byte, c: byte, d: byte)
    ensures KeyOf([a, b, c, d]) == ObjectKey(a * 4 + b / 64, b % 64 * 65536 + c * 256 + d)
  {
    var (w: nat, x: nat, y: nat, z: nat) := (a, b, c, d);
    var low := x % 64 * 65536 + y * 256 + z;
    assert ((w * 256 + x) * 256 + y) * 256 + z == (w * 4 + x / 64) * 4194304 + low;
  }

  /** Octets are read most significant first, and what does not fit 32 bits is lost. */
  lemma {:induction false} UnsignedInNumbers(data: Octets, last: byte)
    ensures JoinUnsigned([]) == 0
    ensures JoinUnsigned(data + [last]) == (JoinUnsigned(data) as int * 256 + last) % 4294967296
  {
    assert (data + [last])[..|data|] == data;
  }

  /** `decodeContextObjectID`. */
  function TakeKey(ts: seq<Token>, tag: nat): Option<(ObjectKey, seq<Token>)> {
    if ts != [] && ts[0].Context? && ts[0].n == tag && |ts[0].data| == 4 then Some((KeyOf(ts[0].data), ts[1..]))
    else None
  }

  function TakeUnsigned(ts: seq<Token>, tag: nat): Option<(uint32, seq<Token>)> {
    if ts != [] && ts[0].Context? && ts[0].n == tag then Some((JoinUnsigned(ts[0].data), ts[1..])) else None
  }

  /** An optional context-tagged unsigned: absent when the next token is anything else. */
  function TakeOptional(ts: seq<Token>, tag: nat): (Option<uint32>, seq<Token>) {
    match TakeUnsigned(ts, tag)
    case None => (None, ts)
    case Some((n, rest)) => (Some(n), rest)
  }

  // ----- Requests up to how their numbers are written -----

  /** The same token, or the same number in another number of octets. */
  predicate SameToken(a: Token, b: Token) {
    a == b || (a.Context? && b.Context? && a.n == b.n && JoinUnsigned(a.data) == JoinUnsigned(b.data))
  }

  predicate SameTokens(a: seq<Token>, b: seq<Token>) {
    |a| == |b| && forall i :: 0 <= i < |a| ==> SameToken(a[i], b[i])
  }

  lemma SameAfter(x: seq<Token>, y: seq<Token>, a: seq<Token>, b: seq<Token>)
    requires SameTokens(x, y) && SameTokens(a, b)
    ensures SameTokens(x + a, y + b)
  {
    hide SameToken;
  }

  lemma SameTransitively(a: seq<Token>, b: seq<Token>, c: seq<Token>)
    requires SameTokens(a, b) && SameTokens(b, c)
    ensures SameTokens(a, c)
  {
    forall i | 0 <= i < |a| ensures SameToken(a[i], c[i]) {
      assert SameToken(a[i], b[i]) && SameToken(b[i], c[i]);
    }
  }

  lemma {:induction false} UnsignedIsSame(tag: nat, data: Octets)
    ensures SameTokens([Context(tag, data)], [Context(tag, UnsignedOctets(JoinUnsigned(data)))])
  {
    UnsignedRoundTrip(JoinUnsigned(data));
    hide JoinUnsigned, UnsignedOctets;
  }

  // ----- Brackets -----

  /** Where a reader that keeps the whole stack of open brackets finds the bottom one closed; `None` if ill nested. */
  function MatchClose(tokens: seq<Token>, offset: nat, stack: seq<nat>): Option<nat>
    requires offset <= |tokens| && stack != []
    decreases |tokens| - offset
  {
    if offset == |tokens| then None
    else match tokens[offset]
         case Open(n) => MatchClose(tokens, offset + 1, stack + [n])
         case Close(n) =>
           if n != stack[|stack| - 1] then None
           else if |stack| == 1 then Some(offset + 1)
           else MatchClose(tokens, offset + 1, stack[..|stack| - 1])
         case _ => MatchClose(tokens, offset + 1, stack)
  }

  function Count(stack: seq<nat>, n: nat): nat {
    if stack == [] then 0 else Count(stack[..|stack| - 1], n) + if stack[|stack| - 1] == n then 1 else 0
  }

  /** The number of `n` brackets left open after some tokens, `depth` of them being open before. */
  function Depth(tokens: seq<Token>, n: nat, depth: int): int {
    if tokens == [] then depth
    else Depth(tokens[..|tokens| - 1], n, depth)
         + match tokens[|tokens| - 1]
           case Open(k) => if k == n then 1 else 0
           case Close(k) => if k == n then -1 else 0
           case _ => 0
  }

  /**
   `skipToClosing` counts its own bracket only. It stops at the first token
   that closes more of them than were open, and on input that is well nested
   for a reader keeping the whole stack it stops where that reader does.
   */
  method SkipToClosing(tokens: seq<Token>, start: nat, n: nat) returns (r: Option<nat>)
    requires start <= |tokens|
    ensures r.Some? ==> start < r.value <= |tokens| && tokens[r.value - 1] == Close(n)
                        && Depth(tokens[start..r.value], n, 1) == 0
                        && forall k | start <= k < r.value :: Depth(tokens[start..k], n, 1) > 0
    ensures r.None? ==> forall k | start <= k <= |tokens| :: Depth(tokens[start..k], n, 1) > 0
    ensures MatchClose(tokens, start, [n]).Some? ==> r == MatchClose(tokens, start, [n])
  {
    var depth, offset := 1, start;
    ghost var stack := [n];
    assert tokens[start..start] == [];
    assert [n][..0] == [];
    while offset < |tokens|
      invariant start <= offset <= |tokens| && depth >= 1
      invariant depth == Depth(tokens[start..offset], n, 1)
      invariant forall k | start <= k <= offset :: Depth(tokens[start..k], n, 1) > 0
      invariant MatchClose(tokens, start, [n]).Some? ==>
                  stack != [] && stack[0] == n && Count(stack, n) == depth
                  && MatchClose(tokens, offset, stack) == MatchClose(tokens, start, [n])
    {
      assert tokens[start..offset + 1][..offset - start] == tokens[start..offset];
      if MatchClose(tokens, start, [n]).Some? {
        CountBounds(stack, n);
        if tokens[offset].Open? {
          assert (stack + [tokens[offset].n])[..|stack|] == stack;
          stack := stack + [tokens[offset].n];
        } else if tokens[offset].Close? {
          if |stack| > 1 {
            CountBounds(stack[..|stack| - 1], n);
          }
          stack := stack[..|stack| - 1];
        }
      }
      match tokens[offset] {
        case Open(k) =>
          if k == n {
            depth := depth + 1;
          }
        case Close(k) =>
          if k == n {
            depth := depth - 1;
            if depth == 0 {
              return Some(offset + 1);
            }
          }
        case _ =>
      }
      offset := offset + 1;
    }
    return None;
  }

  /** The bottom bracket is always counted. */
  lemma {:induction false} CountBounds(stack: seq<nat>, n: nat)
    requires stack != [] && stack[0] == n
    ensures Count(stack, n) >= 1
    ensures |stack| == 1 ==> Count(stack, n) == 1
  {
    if |stack| > 1 {
      CountBounds(stack[..|stack| - 1], n);
    } else {
      assert stack[..|stack| - 1] == [];
    }
  }
}
