/**
 WritePropertyMultiple: the client's grouping of writes, the request on the
 wire (section 15.10 of ANSI/ASHRAE 135), the adapter's parser and its handler.
 */
module WriteMultiple {
  import opened Wire
  import opened Identifiers
  import opened Tags
  import opened Store

  // ----- Parsing, front to back -----

  function TakeHeader(ts: seq<Token>): Option<(ObjectKey, seq<Token>)> {
    match TakeKey(ts, 0)
    case None => None
    case Some((key, rest)) => if rest != [] && rest[0] == Open(1) then Some((key, rest[1..])) else None
  }

  /** Property, optional array index, one application value in brackets, optional priority, which is dropped. */
  function TakeWrite(key: ObjectKey, ts: seq<Token>): (r: Option<(Write, seq<Token>)>)
    ensures r.Some? ==> |r.value.1| < |ts|
  {
    match TakeUnsigned(ts, 0)
    case None => None
    case Some((id, t1)) =>
      var (index, t2) := TakeOptional(t1, 1);
      if |t2| < 3 || t2[0] != Open(2) || !t2[1].App? || t2[2] != Close(2) then None
      else Some((Write(key, PropertyRef(id, index), t2[1].v), TakeOptional(t2[3..], 3).1))
  }

  function TakeWrites(key: ObjectKey, ts: seq<Token>): (r: Option<(seq<Write>, seq<Token>)>)
    ensures r.Some? ==> |r.value.1| < |ts|
    decreases |ts|
  {
    if ts == [] then None
    else if ts[0] == Close(1) then Some(([], ts[1..]))
    else match TakeWrite(key, ts)
         case None => None
         case Some((w, rest)) =>
           match TakeWrites(key, rest)
           case None => None
           case Some((ws, end)) => Some(([w] + ws, end))
  }

  function Parse(ts: seq<Token>): Option<seq<Write>>
    decreases |ts|
  {
    if ts == [] then Some([])
    else match TakeHeader(ts)
         case None => None
         case Some((key, t1)) =>
           match TakeWrites(key, t1)
           case None => None
           case Some((ws, t2)) =>
             match Parse(t2)
             case None => None
             case Some(rest) => Some(ws + rest)
  }

  /** What remains to be parsed inside an object's list, put after what is already there. */
  function Resume(out: seq<Write>, key: ObjectKey, ts: seq<Token>): Option<seq<Write>> {
    match TakeWrites(key, ts)
    case None => None
    case Some((ws, rest)) => Then(out + ws, Parse(rest))
  }

  function Then(out: seq<Write>, rest: Option<seq<Write>>): Option<seq<Write>> {
    match rest
    case None => None
    case Some(ws) => Some(out + ws)
  }

  /** One property of the inner loop, read at an offset. */
  method DecodeWrite(tokens: seq<Token>, start: nat, key: ObjectKey) returns (r: Option<(Write, nat)>)
    requires start < |tokens|
    ensures match r
            case None => TakeWrite(key, tokens[start..]) == None
            case Some((w, next)) =>
              start < next <= |tokens| && TakeWrite(key, tokens[start..]) == Some((w, tokens[next..]))
  {
    hide JoinUnsigned, TakeWrite;
    var offset := start;
    ghost var ts := tokens[start..];
    var prop := DecodeContextUnsigned(tokens, offset, 0);
    if prop.None? {
      NoWrite(key, ts);
      return None;
    }
    offset := prop.value.1;
    ghost var t1 := tokens[offset..];
    assert ts[1..] == t1;
    var ref := PropertyRef(prop.value.0, None);
    if offset >= |tokens| {
      WriteAfter(key, ts, ref.id, t1, None, t1);
      return None;
    }
    if tokens[offset].Context? && tokens[offset].n == 1 {
      var index := DecodeContextUnsigned(tokens, offset, 1);
      ref := ref.(index := Some(index.value.0));
      offset := index.value.1;
      assert t1[1..] == tokens[offset..];
    }
    ghost var t2 := tokens[offset..];
    WriteAfter(key, ts, ref.id, t1, ref.index, t2);
    hide TakeUnsigned;
    if offset >= |tokens| {
      return None;
    }
    if tokens[offset] != Open(2) {
      return None;
    }
    offset := offset + 1;
    if offset >= |tokens| || !tokens[offset].App? {
      return None;
    }
    var value := tokens[offset].v;
    offset := offset + 1;
    if offset >= |tokens| || tokens[offset] != Close(2) {
      return None;
    }
    offset := offset + 1;
    ghost var t3 := tokens[offset..];
    assert t2[3..] == t3;
    if offset < |tokens| && tokens[offset].Context? && tokens[offset].n == 3 {
      var priority := DecodeContextUnsigned(tokens, offset, 3);
      assert t3[1..] == tokens[offset + 1..];
      offset := priority.value.1;
    }
    PriorityIsDropped(t3);
    return Some((Write(key, ref, value), offset));
  }

  lemma NoWrite(key: ObjectKey, ts: seq<Token>)
    requires TakeUnsigned(ts, 0).None?
    ensures TakeWrite(key, ts).None?
  {
  }

  /** What stands after the property and its index. */
  lemma WriteAfter(key: ObjectKey, ts: seq<Token>, id: uint32, t1: seq<Token>, index: Option<uint32>, t2: seq<Token>)
    requires TakeUnsigned(ts, 0) == Some((id, t1)) && TakeOptional(t1, 1) == (index, t2)
    ensures TakeWrite(key, ts) ==
            if |t2| < 3 || t2[0] != Open(2) || !t2[1].App? || t2[2] != Close(2) then None
            else Some((Write(key, PropertyRef(id, index), t2[1].v), TakeOptional(t2[3..], 3).1))
  {
  }

  lemma PriorityIsDropped(ts: seq<Token>)
    ensures TakeOptional(ts, 3).1 == if ts != [] && ts[0].Context? && ts[0].n == 3 then ts[1..] else ts
  {
  }

  /** `decodeWPM`: two nested loops over one offset. */
  method Decode(tokens: seq<Token>) returns (r: Option<seq<Write>>)
    ensures r == Parse(tokens)
  {
    hide TakeWrite, TakeKey;
    var out := [];
    var offset := 0;
    assert tokens[0..] == tokens;
    ghost var parsed := Parse(tokens);
    assert parsed == Then([], parsed) by { if parsed.Some? { assert [] + parsed.value == parsed.value; } }
    while offset < |tokens|
      invariant 0 <= offset <= |tokens|
      invariant parsed == Then(out, Parse(tokens[offset..]))
    {
      var header := TakeHeader(tokens[offset..]);
      if header.None? {
        return None;
      }
      var key := header.value.0;
      HeaderTakesTwo(tokens, offset);
      offset := offset + 2;
      assert parsed == Resume(out, key, tokens[offset..]) by { ThenResume(out, key, tokens[offset..]); }
      while true
        invariant 0 <= offset <= |tokens|
        invariant parsed == Resume(out, key, tokens[offset..])
        decreases |tokens| - offset
      {
        if offset >= |tokens| {
          return None;
        }
        if tokens[offset] == Close(1) {
          assert tokens[offset..][1..] == tokens[offset + 1..];
          assert out + [] == out;
          offset := offset + 1;
          break;
        }
        var w := DecodeWrite(tokens, offset, key);
        if w.None? {
          return None;
        }
        ResumeOne(out, key, tokens[offset..], w.value.0, tokens[w.value.1..]);
        out := out + [w.value.0];
        offset := w.value.1;
      }
    }
    assert tokens[offset..] == [];
    assert out + [] == out;
    return Some(out);
  }

  lemma HeaderTakesTwo(tokens: seq<Token>, offset: nat)
    requires offset < |tokens| && TakeHeader(tokens[offset..]).Some?
    ensures offset + 2 <= |tokens| && TakeHeader(tokens[offset..]).value.1 == tokens[offset + 2..]
  {
  }

  lemma {:induction false} ThenResume(out: seq<Write>, key: ObjectKey, ts: seq<Token>)
    ensures Then(out, match TakeWrites(key, ts)
                      case None => None
                      case Some((ws, t2)) => match Parse(t2) case None => None case Some(rest) => Some(ws + rest))
            == Resume(out, key, ts)
  {
    hide TakeWrites, Parse;
    match TakeWrites(key, ts) {
      case None =>
      case Some((ws, t2)) =>
        if Parse(t2).Some? { assert out + (ws + Parse(t2).value) == (out + ws) + Parse(t2).value; }
    }
  }

  lemma ResumeOne(out: seq<Write>, key: ObjectKey, ts: seq<Token>, w: Write, rest: seq<Token>)
    requires ts != [] && ts[0] != Close(1) && TakeWrite(key, ts) == Some((w, rest))
    ensures Resume(out, key, ts) == Resume(out + [w], key, rest)
  {
    hide TakeWrite, Parse;
    match TakeWrites(key, rest) {
      case None =>
      case Some((ws, _)) => assert out + ([w] + ws) == (out + [w]) + ws;
    }
  }

  // ----- The request as the standard writes it -----

  datatype PropertyWrite = PropertyWrite(prop: PropertyRef, value: AppValue, priority: Option<uint32>)
  datatype WriteSpec = WriteSpec(key: ObjectKey, writes: seq<PropertyWrite>)

  function PrintOptional(tag: nat, n: Option<uint32>): seq<Token> {
    if n.None? then [] else [Context(tag, UnsignedOctets(n.value))]
  }

  function PrintWrite(w: PropertyWrite): seq<Token> {
    [Context(0, UnsignedOctets(w.prop.id))] + (PrintOptional(1, w.prop.index)
    + ([Open(2), App(w.value), Close(2)] + PrintOptional(3, w.priority)))
  }

  function PrintWrites(ws: seq<PropertyWrite>): seq<Token> {
    if ws == [] then [] else PrintWrite(ws[0]) + PrintWrites(ws[1..])
  }

  function Print(specs: seq<WriteSpec>): seq<Token>
    requires forall s | s in specs :: s.key.HasIdentifier()
  {
    if specs == [] then []
    else [Context(0, KeyOctets(specs[0].key)), Open(1)]
         + (PrintWrites(specs[0].writes) + ([Close(1)] + Print(specs[1..])))
  }

  /** The writes of one object in order, their priorities erased. */
  function Erased(key: ObjectKey, ws: seq<PropertyWrite>): (r: seq<Write>)
    ensures |r| == |ws|
  {
    if ws == [] then [] else [Write(key, ws[0].prop, ws[0].value)] + Erased(key, ws[1..])
  }

  function Flatten(specs: seq<WriteSpec>): seq<Write> {
    if specs == [] then [] else Erased(specs[0].key, specs[0].writes) + Flatten(specs[1..])
  }

  lemma OptionalIsRead(tag: nat, n: Option<uint32>, rest: seq<Token>)
    requires rest != [] ==> !(rest[0].Context? && rest[0].n == tag)
    ensures TakeOptional(PrintOptional(tag, n) + rest, tag) == (n, rest)
  {
    if n.Some? {
      UnsignedRoundTrip(n.value);
      assert (PrintOptional(tag, n) + rest)[1..] == rest;
    } else {
      assert PrintOptional(tag, n) + rest == rest;
    }
  }

  lemma WriteIsRead(key: ObjectKey, w: PropertyWrite, rest: seq<Token>)
    requires rest != [] ==> !(rest[0].Context? && rest[0].n == 3)
    ensures TakeWrite(key, PrintWrite(w) + rest) == Some((Write(key, w.prop, w.value), rest))
  {
    hide TakeWrite, TakeOptional, PrintOptional, UnsignedOctets, JoinUnsigned;
    var tail := PrintOptional(3, w.priority) + rest;
    var value := [Open(2), App(w.value), Close(2)] + tail;
    var t1 := PrintOptional(1, w.prop.index) + value;
    var ts := PrintWrite(w) + rest;
    assert ts == [Context(0, UnsignedOctets(w.prop.id))] + t1;
    assert ts[1..] == t1 && value[3..] == tail;
    UnsignedRoundTrip(w.prop.id);
    OptionalIsRead(1, w.prop.index, value);
    OptionalIsRead(3, w.priority, rest);
    WriteAfter(key, ts, w.prop.id, t1, w.prop.index, value);
    hide PrintWrite;
  }

  lemma {:induction false} WritesAreRead(key: ObjectKey, ws: seq<PropertyWrite>, rest: seq<Token>)
    ensures TakeWrites(key, PrintWrites(ws) + ([Close(1)] + rest)) == Some((Erased(key, ws), rest))
  {
    var end := [Close(1)] + rest;
    if ws == [] {
      assert PrintWrites(ws) + end == end && end[1..] == rest;
    } else {
      var more := PrintWrites(ws[1..]) + end;
      assert PrintWrites(ws) + end == PrintWrite(ws[0]) + more;
      assert more[0] == Close(1) || (more[0].Context? && more[0].n == 0);
      WriteIsRead(key, ws[0], more);
      assert (PrintWrite(ws[0]) + more)[0] == Context(0, UnsignedOctets(ws[0].prop.id));
      WritesAreRead(key, ws[1..], rest);
      hide TakeWrite, PrintWrite;
    }
  }

  lemma HeaderIsRead(key: ObjectKey, body: seq<Token>)
    requires key.HasIdentifier()
    ensures TakeHeader([Context(0, KeyOctets(key)), Open(1)] + body) == Some((key, body))
  {
    hide KeyOctets, KeyOf;
    var ts := [Context(0, KeyOctets(key)), Open(1)] + body;
    assert ts[1..][0] == Open(1) && ts[1..][1..] == body;
    KeyRoundTrip(key);
  }

  /** The parser inverts the printer: every request comes back as its writes in order, priorities erased. */
  lemma {:induction false} ParsePrinted(specs: seq<WriteSpec>)
    requires forall s | s in specs :: s.key.HasIdentifier()
    ensures Parse(Print(specs)) == Some(Flatten(specs))
  {
    hide TakeWrites, PrintWrites, KeyOctets, KeyOf, Erased;
    if specs != [] {
      var s, rest := specs[0], Print(specs[1..]);
      var body := PrintWrites(s.writes) + ([Close(1)] + rest);
      var ts := Print(specs);
      assert ts == [Context(0, KeyOctets(s.key)), Open(1)] + body;
      HeaderIsRead(s.key, body);
      WritesAreRead(s.key, s.writes, rest);
      ParsePrinted(specs[1..]);
      hide TakeHeader;
    }
  }

  // ----- Whatever is parsed could have been printed -----

  lemma OptionalIsPrinted(ts: seq<Token>, tag: nat)
    ensures var (n, rest) := TakeOptional(ts, tag); SameTokens(ts, PrintOptional(tag, n) + rest)
  {
    hide SameTokens, JoinUnsigned, UnsignedOctets;
    if TakeUnsigned(ts, tag).Some? {
      UnsignedIsPrinted(ts, tag);
    } else {
      assert PrintOptional(tag, None) + ts == ts;
      assert SameTokens(ts, ts) by { SameAsItself(ts); }
    }
  }

  lemma SameAsItself(ts: seq<Token>)
    ensures SameTokens(ts, ts)
  {
  }

  lemma UnsignedIsPrinted(ts: seq<Token>, tag: nat)
    requires TakeUnsigned(ts, tag).Some?
    ensures var (n, rest) := TakeUnsigned(ts, tag).value; SameTokens(ts, [Context(tag, UnsignedOctets(n))] + rest)
  {
    hide SameTokens, JoinUnsigned, UnsignedOctets;
    var data := ts[0].data;
    UnsignedIsSame(tag, data);
    SameAsItself(ts[1..]);
    SameAfter([Context(tag, data)], [Context(tag, UnsignedOctets(JoinUnsigned(data)))], ts[1..], ts[1..]);
    assert ts == [Context(tag, data)] + ts[1..];
  }

  lemma HeaderIsPrinted(ts: seq<Token>)
    requires ts != [] && TakeHeader(ts).Some?
    ensures var (key, rest) := TakeHeader(ts).value;
            key.HasIdentifier() && ts == [Context(0, KeyOctets(key)), Open(1)] + rest
  {
    KeyOfRoundTrip(ts[0].data);
    hide KeyOctets, KeyOf;
    assert ts == [ts[0], ts[1..][0]] + ts[1..][1..];
  }

  lemma {:induction false} WriteIsPrinted(key: ObjectKey, ts: seq<Token>) returns (w: PropertyWrite)
    requires TakeWrite(key, ts).Some?
    ensures var (taken, rest) := TakeWrite(key, ts).value;
            taken == Write(key, w.prop, w.value) && SameTokens(ts, PrintWrite(w) + rest)
  {
    hide SameTokens, TakeUnsigned, TakeOptional, TakeWrite, PrintOptional, UnsignedOctets;
    if TakeUnsigned(ts, 0).None? {
      NoWrite(key, ts);
    }
    var (id, t1) := TakeUnsigned(ts, 0).value;
    var (index, t2) := TakeOptional(t1, 1);
    WriteAfter(key, ts, id, t1, index, t2);
    var (priority, rest) := TakeOptional(t2[3..], 3);
    w := PropertyWrite(PropertyRef(id, index), t2[1].v, priority);
    var first, p1 := [Context(0, UnsignedOctets(id))], PrintOptional(1, index);
    var value := [Open(2), App(w.value), Close(2)] + (PrintOptional(3, priority) + rest);
    ValueIsPrinted(t2);
    UnsignedIsPrinted(ts, 0);
    OptionalIsPrinted(t1, 1);
    After(p1, t2, value);
    SameTransitively(t1, p1 + t2, p1 + value);
    After(first, t1, p1 + value);
    SameTransitively(ts, first + t1, first + (p1 + value));
    assert first + (p1 + value) == PrintWrite(w) + rest;
  }

  lemma ValueIsPrinted(ts: seq<Token>)
    requires |ts| >= 3 && ts[0] == Open(2) && ts[1].App? && ts[2] == Close(2)
    ensures var (priority, rest) := TakeOptional(ts[3..], 3);
            SameTokens(ts, [Open(2), App(ts[1].v), Close(2)] + (PrintOptional(3, priority) + rest))
  {
    hide SameTokens, TakeOptional, PrintOptional;
    var (priority, rest) := TakeOptional(ts[3..], 3);
    OptionalIsPrinted(ts[3..], 3);
    var value := [Open(2), App(ts[1].v), Close(2)];
    assert ts == value + ts[3..];
    After(value, ts[3..], PrintOptional(3, priority) + rest);
  }

  lemma After(x: seq<Token>, a: seq<Token>, b: seq<Token>)
    requires SameTokens(a, b)
    ensures SameTokens(x + a, x + b)
  {
    SameAsItself(x);
    SameAfter(x, x, a, b);
    hide SameTokens;
  }

  lemma {:induction false} WritesArePrinted(key: ObjectKey, ts: seq<Token>) returns (ws: seq<PropertyWrite>)
    requires TakeWrites(key, ts).Some?
    ensures var (taken, rest) := TakeWrites(key, ts).value;
            taken == Erased(key, ws) && SameTokens(ts, PrintWrites(ws) + ([Close(1)] + rest))
    decreases |ts|
  {
    hide SameTokens, TakeWrite, PrintWrite;
    if ts[0] == Close(1) {
      ws := [];
      assert ts == PrintWrites([]) + ([Close(1)] + ts[1..]);
      SameAsItself(ts);
    } else {
      var (taken, t1) := TakeWrite(key, ts).value;
      var w := WriteIsPrinted(key, ts);
      var more := WritesArePrinted(key, t1);
      ws := [w] + more;
      var end := [Close(1)] + TakeWrites(key, t1).value.1;
      After(PrintWrite(w), t1, PrintWrites(more) + end);
      SameTransitively(ts, PrintWrite(w) + t1, PrintWrite(w) + (PrintWrites(more) + end));
      assert ws[1..] == more && PrintWrites(ws) + end == PrintWrite(w) + (PrintWrites(more) + end);
    }
  }

  /**
   Every request that is accepted is, its numbers put in the fewest octets, the printed form of some specifications.
   */
  lemma {:induction false} ParsedIsPrinted(ts: seq<Token>) returns (specs: seq<WriteSpec>)
    requires Parse(ts).Some?
    ensures forall s | s in specs :: s.key.HasIdentifier()
    ensures Parse(ts) == Some(Flatten(specs)) && SameTokens(ts, Print(specs))
    decreases |ts|
  {
    hide SameTokens, TakeHeader, TakeWrites, KeyOctets, PrintWrites, Erased;
    specs := [];
    if ts == [] {
      SameAsItself([]);
    } else {
      var (key, t1) := TakeHeader(ts).value;
      var (taken, t2) := TakeWrites(key, t1).value;
      HeaderIsPrinted(ts);
      var ws := WritesArePrinted(key, t1);
      var more := ParsedIsPrinted(t2);
      specs := [WriteSpec(key, ws)] + more;
      assert specs[1..] == more;
      var header, body := [Context(0, KeyOctets(key)), Open(1)], PrintWrites(ws);
      After([Close(1)], t2, Print(more));
      After(body, [Close(1)] + t2, [Close(1)] + Print(more));
      SameTransitively(t1, body + ([Close(1)] + t2), body + ([Close(1)] + Print(more)));
      After(header, t1, body + ([Close(1)] + Print(more)));
    }
  }

  // ----- The client's grouping -----

  datatype ClientWrite = ClientWrite(key: ObjectKey, write: PropertyWrite)

  function Plain(ws: seq<ClientWrite>): (r: seq<Write>)
    ensures |r| == |ws|
  {
    if ws == [] then []
    else Plain(ws[..|ws| - 1]) + [Write(ws[|ws| - 1].key, ws[|ws| - 1].write.prop, ws[|ws| - 1].write.value)]
  }

  /** No specification is empty, each is for one of the keys, and no two neighbours could still be merged. */
  ghost predicate Tidy(specs: seq<WriteSpec>, keys: set<ObjectKey>) {
    && (forall i :: 0 <= i < |specs| ==> specs[i].writes != [] && specs[i].key in keys)
    && (forall i, j :: 0 <= i && j == i + 1 && j < |specs| ==> specs[i].key != specs[j].key)
  }

  function KeysOf(writes: seq<ClientWrite>): set<ObjectKey> {
    set w | w in writes :: w.key
  }

  /** Consecutive writes to one object share a specification; flattened, the client's writes stand in their order. */
  method Group(writes: seq<ClientWrite>) returns (specs: seq<WriteSpec>)
    ensures Flatten(specs) == Plain(writes)
    ensures Tidy(specs, KeysOf(writes))
  {
    hide Tidy, Flatten, Erased;
    specs := [];
    EmptyIsTidy(KeysOf(writes));
    for i := 0 to |writes|
      invariant Flatten(specs) == Plain(writes[..i])
      invariant Tidy(specs, KeysOf(writes))
    {
      var w := writes[i];
      assert w in writes && writes[..i + 1][..i] == writes[..i];
      if specs != [] && specs[|specs| - 1].key == w.key {
        MergeIntoLast(specs, w, KeysOf(writes));
        specs := specs[|specs| - 1 := WriteSpec(w.key, specs[|specs| - 1].writes + [w.write])];
      } else {
        AppendNew(specs, w, KeysOf(writes));
        specs := specs + [WriteSpec(w.key, [w.write])];
      }
    }
    assert writes[..|writes|] == writes;
  }

  lemma EmptyIsTidy(keys: set<ObjectKey>)
    ensures Tidy([], keys) && Flatten([]) == []
  {
  }

  lemma MergeIntoLast(specs: seq<WriteSpec>, w: ClientWrite, keys: set<ObjectKey>)
    requires specs != [] && specs[|specs| - 1].key == w.key && Tidy(specs, keys)
    ensures var merged := specs[|specs| - 1 := WriteSpec(w.key, specs[|specs| - 1].writes + [w.write])];
            Flatten(merged) == Flatten(specs) + [Write(w.key, w.write.prop, w.write.value)] && Tidy(merged, keys)
  {
    var last, init := specs[|specs| - 1], specs[..|specs| - 1];
    var longer := WriteSpec(w.key, last.writes + [w.write]);
    assert specs == init + [last] && specs[|specs| - 1 := longer] == init + [longer];
    FlattenAppend(init, last);
    FlattenAppend(init, longer);
    ErasedAppend(w.key, last.writes, w.write);
    hide Flatten, Erased;
  }

  lemma {:induction false} AppendNew(specs: seq<WriteSpec>, w: ClientWrite, keys: set<ObjectKey>)
    requires (specs == [] || specs[|specs| - 1].key != w.key) && Tidy(specs, keys) && w.key in keys
    ensures var longer := specs + [WriteSpec(w.key, [w.write])];
            Flatten(longer) == Flatten(specs) + [Write(w.key, w.write.prop, w.write.value)] && Tidy(longer, keys)
  {
    FlattenAppend(specs, WriteSpec(w.key, [w.write]));
    ErasedAppend(w.key, [], w.write);
    assert [] + [w.write] == [w.write];
    hide Flatten;
  }

  lemma {:induction false} FlattenAppend(specs: seq<WriteSpec>, s: WriteSpec)
    ensures Flatten(specs + [s]) == Flatten(specs) + Erased(s.key, s.writes)
  {
    if specs == [] {
      assert specs + [s] == [s] && [s][1..] == [];
    } else {
      assert (specs + [s])[1..] == specs[1..] + [s];
      FlattenAppend(specs[1..], s);
    }
  }

  lemma {:induction false} ErasedAppend(key: ObjectKey, ws: seq<PropertyWrite>, w: PropertyWrite)
    ensures Erased(key, ws + [w]) == Erased(key, ws) + [Write(key, w.prop, w.value)]
  {
    if ws == [] {
      assert ws + [w] == [w] && [w][1..] == [];
    } else {
      assert (ws + [w])[1..] == ws[1..] + [w];
      ErasedAppend(key, ws[1..], w);
    }
  }

  // ----- The handler -----

  datatype Response = Ack | Error(failure: Failure) | WriteError(tokens: seq<Token>)

  function FoldWrites(contents: Contents, ws: seq<Write>): Contents {
    if ws == [] then contents else Applied(FoldWrites(contents, ws[..|ws| - 1]), ws[|ws| - 1])
  }

  /** Position of the first write refused on the contents before the request. */
  function FirstRefused(contents: Contents, ws: seq<Write>): (r: nat)
    ensures r <= |ws| && forall i | 0 <= i < r :: Verdict(contents, ws[i]).None?
    ensures r < |ws| ==> Verdict(contents, ws[r]).Some?
  {
    if ws == [] then 0 else if Verdict(contents, ws[0]).Some? then 0 else 1 + FirstRefused(contents, ws[1..])
  }

  /** WritePropertyMultiple-Error: the error, and the write that failed first. */
  function ErrorTokens(w: Write, failure: Failure): seq<Token>
    requires w.key.HasIdentifier()
  {
    [Open(0), App(AppEnum(failure.category)), App(AppEnum(failure.code)), Close(0),
     Open(1), Context(0, KeyOctets(w.key)), Context(1, UnsignedOctets(w.prop.id))]
    + PrintOptional(2, w.prop.index) + [Close(1)]
  }

  /** A strict reader of that form. */
  function ReadError(ts: seq<Token>): Option<(ObjectKey, PropertyRef, Failure)> {
    if |ts| < 5 || ts[0] != Open(0) || !ts[1].App? || !ts[1].v.AppEnum? || !ts[2].App? || !ts[2].v.AppEnum?
       || ts[3] != Close(0) || ts[4] != Open(1) then None
    else match TakeKey(ts[5..], 0)
         case None => None
         case Some((key, t1)) =>
           match TakeUnsigned(t1, 1)
           case None => None
           case Some((id, t2)) =>
             var (index, t3) := TakeOptional(t2, 2);
             if t3 != [Close(1)] then None
             else Some((key, PropertyRef(id, index), Failure(ts[1].v.n, ts[2].v.n)))
  }

  lemma ErrorIsRead(w: Write, failure: Failure)
    requires w.key.HasIdentifier()
    ensures ReadError(ErrorTokens(w, failure)) == Some((w.key, w.prop, failure))
  {
    hide KeyOf, KeyOctets, JoinUnsigned, UnsignedOctets, PrintOptional, TakeOptional;
    var ts, t2 := ErrorTokens(w, failure), PrintOptional(2, w.prop.index) + [Close(1)];
    KeyRoundTrip(w.key);
    UnsignedRoundTrip(w.prop.id);
    OptionalIsRead(2, w.prop.index, [Close(1)]);
    var t1 := [Context(1, UnsignedOctets(w.prop.id))] + t2;
    assert ts[5..] == [Context(0, KeyOctets(w.key))] + t1;
    assert ts[5..][1..] == t1 && t1[1..] == t2;
  }

  /** Whether a write is refused depends on which objects there are and on the write, not on what was written before. */
  lemma VerdictIsStable(a: Contents, b: Contents, w: Write)
    requires a.Keys == b.Keys
    ensures Verdict(a, w) == Verdict(b, w)
  {
  }

  lemma {:induction false} FoldKeepsKeys(contents: Contents, ws: seq<Write>)
    ensures FoldWrites(contents, ws).Keys == contents.Keys
  {
    if ws != [] {
      FoldKeepsKeys(contents, ws[..|ws| - 1]);
    }
  }

  lemma {:induction false} ParsedKeysAreIdentifiers(ts: seq<Token>)
    requires Parse(ts).Some?
    ensures forall w | w in Parse(ts).value :: w.key.HasIdentifier()
    decreases |ts|
  {
    if ts != [] {
      var (key, t1) := TakeHeader(ts).value;
      var (ws, t2) := TakeWrites(key, t1).value;
      TakenKeys(key, t1);
      ParsedKeysAreIdentifiers(t2);
      hide TakeWrites;
    }
  }

  lemma {:induction false} TakenKeys(key: ObjectKey, ts: seq<Token>)
    requires TakeWrites(key, ts).Some?
    ensures forall w | w in TakeWrites(key, ts).value.0 :: w.key == key
    decreases |ts|
  {
    if ts[0] != Close(1) {
      TakenKeys(key, TakeWrite(key, ts).value.1);
    }
  }

  /** Present value (85) of an analog output or value, or of a binary one, in its own type; or a description (28). */
  predicate Acceptable(contents: Contents, w: Write) {
    w.key in contents
    && match w.prop.id
       case 85 => ((w.key.kind == 1 || w.key.kind == 2) && w.value.AppReal?)
                  || ((w.key.kind == 4 || w.key.kind == 5) && w.value.AppEnum?)
       case 28 => w.value.AppString?
       case _ => false
  }

  /** Error class and code: object, unknown-object; property, value-out-of-range; property, write-access-denied. */
  function Objection(contents: Contents, w: Write): Failure {
    if w.key !in contents then Failure(1, 31)
    else if w.prop.id == 28 || (w.prop.id == 85 && w.key.kind in {1, 2, 4, 5}) then Failure(2, 37)
    else Failure(2, 40)
  }

  lemma VerdictInNumbers(contents: Contents, w: Write)
    ensures Verdict(contents, w) == if Acceptable(contents, w) then None else Some(Objection(contents, w))
  {
  }

  /** A write that is accepted is what is read back, but for an empty description. */
  lemma {:induction false} AcceptedReadsBack(contents: Contents, order: seq<ObjectKey>, w: Write)
    requires Acceptable(contents, w) && w.key.HasIdentifier()
    ensures ReadProperty(FoldWrites(contents, [w]), order, w.key, w.prop) ==
            if w.value == AppString("") then Ok([AppString(contents[w.key].name)]) else Ok([w.value])
  {
    assert [w][..0] == [] && [w][1..] == [];
    VerdictInNumbers(contents, w);
    hide Verdict, ReadProperty;
    LastWriteWins(contents, [w], order, w.key, w.prop);
  }

  /**
   The handler applies the writes before the first refused one and stops. An
   undecodable request leaves the store alone; the acknowledgement is sent
   exactly when no write is refused, and the error names the first that is.
   */
  method Handle(store: Store, payload: seq<Token>) returns (response: Response)
    requires store.Valid()
    modifies store.objects.Values
    ensures store.Valid()
    ensures match Parse(payload)
            case None =>
              store.View() == old(store.View())
              && response == Error(Failure(CLASS_SERVICES, CODE_INCONSISTENT_PARAMETERS))
            case Some(ws) =>
              var k := FirstRefused(old(store.View()), ws);
              store.View() == FoldWrites(old(store.View()), ws[..k])
              && (k < |ws| ==> ws[k].key.HasIdentifier()
                               && response == WriteError(ErrorTokens(ws[k], Verdict(old(store.View()), ws[k]).value)))
              && (k == |ws| ==> response == Ack)
    ensures response == Ack <==>
            Parse(payload).Some? && forall w | w in Parse(payload).value :: Acceptable(old(store.View()), w)
    ensures Parse(payload).None? ==> response == Error(Failure(5, 7))
    ensures response == Ack ==> store.View() == FoldWrites(old(store.View()), Parse(payload).value)
    ensures Parse(payload).Some? && response != Ack ==>
              exists k :: 0 <= k < |Parse(payload).value|
                          && AnswersObjection(old(store.View()), Parse(payload).value, k, response)
  {
    hide AnswersObjection, Acceptable, Objection, Parse, FoldWrites, FirstRefused, Verdict, ErrorTokens, ReadError;
    hide Enumerates, Applied;
    var writes := Decode(payload);
    if writes.None? {
      return Error(Failure(CLASS_SERVICES, CODE_INCONSISTENT_PARAMETERS));
    }
    var ws := writes.value;
    ParsedKeysAreIdentifiers(payload);
    var i, failure := ApplyWrites(store, ws);
    FirstObjected(old(store.View()), ws, i);
    if failure.Some? {
      assert ws[i] in ws;
      var tokens := EncodeError(ws[i], failure.value);
      ObjectionIsAnswered(old(store.View()), ws, i, tokens);
      return WriteError(tokens);
    }
    assert ws[..i] == ws;
    return Ack;
  }

  /** The answer names the write at `k`, the first that is not acceptable, and what is wrong with it. */
  ghost predicate AnswersObjection(contents: Contents, ws: seq<Write>, k: nat, response: Response)
    requires k < |ws|
  {
    && (forall i :: 0 <= i < k ==> Acceptable(contents, ws[i])) && !Acceptable(contents, ws[k])
    && response.WriteError?
    && ReadError(response.tokens) == Some((ws[k].key, ws[k].prop, Objection(contents, ws[k])))
  }

  lemma {:induction false} FirstObjected(contents: Contents, ws: seq<Write>, k: nat)
    requires k == FirstRefused(contents, ws)
    ensures k <= |ws| && forall i :: 0 <= i < k ==> Acceptable(contents, ws[i])
    ensures k < |ws| ==> ws[k] in ws && !Acceptable(contents, ws[k])
    ensures k == |ws| <==> forall w | w in ws :: Acceptable(contents, w)
    ensures k < |ws| ==> Verdict(contents, ws[k]) == Some(Objection(contents, ws[k]))
  {
    forall i | 0 <= i < |ws|
      ensures Verdict(contents, ws[i]) ==
              if Acceptable(contents, ws[i]) then None else Some(Objection(contents, ws[i]))
    {
      VerdictInNumbers(contents, ws[i]);
    }
    hide Verdict, Acceptable, Objection, FirstRefused;
    assert forall w | w in ws :: exists i :: 0 <= i < |ws| && ws[i] == w;
  }

  lemma {:induction false} ObjectionIsAnswered(contents: Contents, ws: seq<Write>, k: nat, tokens: seq<Token>)
    requires k < |ws| && k == FirstRefused(contents, ws)
    requires ReadError(tokens) == Some((ws[k].key, ws[k].prop, Verdict(contents, ws[k]).value))
    ensures AnswersObjection(contents, ws, k, WriteError(tokens))
  {
    FirstObjected(contents, ws, k);
    hide Verdict, Acceptable, Objection, FirstRefused, ReadError;
  }

  /** The handler's loop: stops at the first write the store refuses. */
  method ApplyWrites(store: Store, ws: seq<Write>) returns (i: nat, failure: Option<Failure>)
    requires store.Valid()
    modifies store.objects.Values
    ensures store.Valid()
    ensures i == FirstRefused(old(store.View()), ws) && store.View() == FoldWrites(old(store.View()), ws[..i])
    ensures failure == if i < |ws| then Verdict(old(store.View()), ws[i]) else None
  {
    hide Applied, Verdict;
    ghost var before := store.View();
    i := 0;
    while i < |ws|
      invariant store.Valid() && store.objects == old(store.objects)
      invariant i <= |ws| && store.View() == FoldWrites(before, ws[..i])
      invariant forall j | 0 <= j < i :: Verdict(before, ws[j]).None?
    {
      FoldKeepsKeys(before, ws[..i]);
      VerdictIsStable(before, store.View(), ws[i]);
      failure := store.WriteProperty(ws[i]);
      if failure.Some? {
        RefusedChangesNothing(FoldWrites(before, ws[..i]), ws[i]);
        return;
      }
      assert ws[..i + 1][..i] == ws[..i];
      i := i + 1;
    }
    failure := None;
  }

  /** `encodeWPMError`: a reader learns the object, the property with its index, and the error. */
  method EncodeError(w: Write, failure: Failure) returns (out: seq<Token>)
    requires w.key.HasIdentifier()
    ensures out == ErrorTokens(w, failure)
    ensures ReadError(out) == Some((w.key, w.prop, failure))
  {
    hide ReadError;
    out := [Open(0), App(AppEnum(failure.category))];
    out := out + [App(AppEnum(failure.code)), Close(0)];
    out := out + [Open(1), Context(0, KeyOctets(w.key))];
    out := out + [Context(1, UnsignedOctets(w.prop.id))];
    if w.prop.index.Some? {
      out := out + [Context(2, UnsignedOctets(w.prop.index.value))];
    }
    out := out + [Close(1)];
    ErrorIsRead(w, failure);
  }

  lemma RefusedChangesNothing(contents: Contents, w: Write)
    requires Verdict(contents, w).Some?
    ensures Applied(contents, w) == contents
  {
  }

  // ----- What a request leaves behind -----

  /** The value of the last of some writes to a property of an object, if there is one. */
  function LastWrite(ws: seq<Write>, key: ObjectKey, id: nat): Option<AppValue> {
    if ws == [] then None
    else
      var w := ws[|ws| - 1];
      if w.key == key && w.prop.id == id then Some(w.value) else LastWrite(ws[..|ws| - 1], key, id)
  }

  /** Reads after applied writes return, property by property, the last value written, and otherwise what was there. */
  lemma {:induction false} LastWriteWins(contents: Contents, ws: seq<Write>, order: seq<ObjectKey>, key: ObjectKey,
                                         prop: PropertyRef)
    requires FirstRefused(contents, ws) == |ws| && key in contents && key.HasIdentifier()
    ensures ReadProperty(FoldWrites(contents, ws), order, key, prop) ==
            match LastWrite(ws, key, prop.id)
            case None => ReadProperty(contents, order, key, prop)
            case Some(v) =>
              if v == AppString("") && prop.id == DESCRIPTION then Ok([AppString(contents[key].name)]) else Ok([v])
    ensures FoldWrites(contents, ws).Keys == contents.Keys && FoldWrites(contents, ws)[key].name == contents[key].name
  {
    if ws != [] {
      var before, w := ws[..|ws| - 1], ws[|ws| - 1];
      RefusedByPrefix(contents, ws, |ws| - 1);
      LastWriteWins(contents, before, order, key, prop);
      VerdictIsStable(contents, FoldWrites(contents, before), w);
      ReadAfterWrite(FoldWrites(contents, before), order, w, key, prop);
      hide ReadProperty, Applied, Verdict, FirstRefused;
    }
  }

  lemma {:induction false} RefusedByPrefix(contents: Contents, ws: seq<Write>, n: nat)
    requires FirstRefused(contents, ws) == |ws| && n <= |ws|
    ensures FirstRefused(contents, ws[..n]) == n
    ensures n < |ws| ==> Verdict(contents, ws[n]).None?
  {
  }

  lemma ReadAfterWrite(contents: Contents, order: seq<ObjectKey>, w: Write, key: ObjectKey, prop: PropertyRef)
    requires Verdict(contents, w).None? && key in contents && key.HasIdentifier()
    ensures var after := Applied(contents, w);
            after[key].name == contents[key].name
            && ReadProperty(after, order, key, prop) ==
               if w.key == key && w.prop.id == prop.id then
                 if w.value == AppString("") && prop.id == DESCRIPTION then Ok([AppString(contents[key].name)])
                 else Ok([w.value])
               else ReadProperty(contents, order, key, prop)
  {
  }

  /** Writes never change the type of an analog or binary present value. */
  lemma {:induction false} WritesKeepTypes(contents: Contents, ws: seq<Write>)
    requires Typed(contents)
    ensures Typed(FoldWrites(contents, ws))
  {
    if ws != [] {
      WritesKeepTypes(contents, ws[..|ws| - 1]);
      WriteKeepsTypes(FoldWrites(contents, ws[..|ws| - 1]), ws[|ws| - 1]);
      hide Typed, Applied;
    }
  }

  lemma WriteKeepsTypes(contents: Contents, w: Write)
    requires Typed(contents)
    ensures Typed(Applied(contents, w))
  {
  }

  /** What the client groups and prints, the adapter parses back into the client's writes. */
  lemma {:induction false} ClientRequestIsUnderstood(writes: seq<ClientWrite>, specs: seq<WriteSpec>)
    requires Flatten(specs) == Plain(writes) && Tidy(specs, KeysOf(writes))
    requires forall w | w in writes :: w.key.HasIdentifier()
    ensures forall s | s in specs :: s.key.HasIdentifier()
    ensures Parse(Print(specs)) == Some(Plain(writes))
  {
    ParsePrinted(specs);
    hide Parse, Flatten, Print;
  }

  // ----- The object list -----

  /** Object_List at index 0 is its length; whole, it is the sequence of its elements, and no other index exists. */
  lemma ObjectListAgrees(order: seq<ObjectKey>)
    requires |order| < UINT32
    ensures ObjectList(order, Some(0)) == Ok([AppUnsigned(|order|)])
    ensures forall i: uint32 | i > |order| :: ObjectList(order, Some(i)) == Err(Failure(2, 42))
    ensures ObjectList(order, None).Ok? <==> forall i: uint32 | 1 <= i <= |order| :: ObjectList(order, Some(i)).Ok?
    ensures ObjectList(order, None).Ok? ==>
              |ObjectList(order, None).value| == |order|
              && (forall j | 0 <= j < |order| :: ObjectList(order, None).value[j] == AppIdentifier(order[j]))
              && forall i: uint32 | 1 <= i <= |order| ::
                   ObjectList(order, Some(i)) == Ok([ObjectList(order, None).value[i - 1]])
  {
    if !(forall k | k in order :: k.HasIdentifier()) {
      var k :| k in order && !k.HasIdentifier();
      var j :| 0 <= j < |order| && order[j] == k;
      var i: uint32 := j + 1;
      assert ObjectList(order, Some(i)).Err?;
    }
  }

  /** Every key Object_List names can be read, the device included. */
  lemma ListedIsReadable(contents: Contents, order: seq<ObjectKey>, index: uint32, v: AppValue)
    requires Enumerates(order, contents.Keys) && index > 0 && ObjectList(order, Some(index)) == Ok([v])
    ensures v.AppIdentifier? && ReadProperty(contents, order, v.key, PropertyRef(OBJECT_IDENTIFIER, None)) == Ok([v])
  {
  }
}
