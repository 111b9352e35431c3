/**
 ReadPropertyMultiple: the request parser against the form of section 15.7 of
 ANSI/ASHRAE 135, and the acknowledgement against a reader of that form.
 */
module ReadMultiple {
  import opened Wire
  import opened Identifiers
  import opened Tags
  import opened Store
  import opened WriteMultiple

  const ALL_PROPERTIES: nat := 8

  datatype ReadSpec = ReadSpec(key: ObjectKey, props: seq<PropertyRef>, all: bool)

  // ----- The request, front to back -----

  /** One reference; `all` (8) sets the flag and takes no array index. */
  function TakeReference(spec: ReadSpec, ts: seq<Token>): (r: Option<(ReadSpec, seq<Token>)>)
    ensures r.Some? ==> |r.value.1| < |ts|
  {
    match TakeUnsigned(ts, 0)
    case None => None
    case Some((id, rest)) =>
      if id == ALL_PROPERTIES then Some((spec.(all := true), rest))
      else
        var (index, end) := TakeOptional(rest, 1);
        Some((spec.(props := spec.props + [PropertyRef(id, index)]), end))
  }

  function TakeReferences(spec: ReadSpec, ts: seq<Token>): (r: Option<(ReadSpec, seq<Token>)>)
    ensures r.Some? ==> |r.value.1| < |ts|
    decreases |ts|
  {
    if ts == [] then None
    else if ts[0] == Close(1) then Some((spec, ts[1..]))
    else match TakeReference(spec, ts)
         case None => None
         case Some((more, rest)) => TakeReferences(more, rest)
  }

  function ParseSpecs(ts: seq<Token>): Option<seq<ReadSpec>>
    decreases |ts|
  {
    if ts == [] then Some([])
    else match TakeHeader(ts)
         case None => None
         case Some((key, t1)) =>
           match TakeReferences(ReadSpec(key, [], false), t1)
           case None => None
           case Some((spec, t2)) =>
             match ParseSpecs(t2)
             case None => None
             case Some(rest) => Some([spec] + rest)
  }

  function Prepend(out: seq<ReadSpec>, rest: Option<seq<ReadSpec>>): Option<seq<ReadSpec>> {
    match rest
    case None => None
    case Some(specs) => Some(out + specs)
  }

  method DecodeReference(tokens: seq<Token>, start: nat, spec: ReadSpec) returns (r: Option<(ReadSpec, nat)>)
    requires start < |tokens|
    ensures match r
            case None => TakeReference(spec, tokens[start..]) == None
            case Some((more, next)) =>
              start < next <= |tokens| && TakeReference(spec, tokens[start..]) == Some((more, tokens[next..]))
  {
    hide JoinUnsigned;
    var offset := start;
    if !(tokens[offset].Context? && tokens[offset].n == 0) {
      return None;
    }
    var prop := DecodeContextUnsigned(tokens, offset, 0);
    offset := prop.value.1;
    assert tokens[start..][1..] == tokens[offset..];
    if prop.value.0 == ALL_PROPERTIES {
      return Some((spec.(all := true), offset));
    }
    ghost var t1 := tokens[offset..];
    var ref := PropertyRef(prop.value.0, None);
    if offset < |tokens| && tokens[offset].Context? && tokens[offset].n == 1 {
      var index := DecodeContextUnsigned(tokens, offset, 1);
      ref := ref.(index := Some(index.value.0));
      offset := index.value.1;
      assert t1[1..] == tokens[offset..];
    }
    return Some((spec.(props := spec.props + [ref]), offset));
  }

  /** `decodeRPM`. */
  method DecodeSpecs(tokens: seq<Token>) returns (r: Option<seq<ReadSpec>>)
    ensures r == ParseSpecs(tokens)
  {
    hide TakeReference, TakeKey;
    var specs := [];
    var offset := 0;
    assert tokens[0..] == tokens;
    ghost var parsed := ParseSpecs(tokens);
    assert parsed.Some? ==> [] + parsed.value == parsed.value;
    while offset < |tokens|
      invariant 0 <= offset <= |tokens|
      invariant parsed == Prepend(specs, ParseSpecs(tokens[offset..]))
    {
      var header := TakeHeader(tokens[offset..]);
      if header.None? {
        return None;
      }
      HeaderTakesTwo(tokens, offset);
      var spec := ReadSpec(header.value.0, [], false);
      ghost var taken := TakeReferences(spec, tokens[offset + 2..]);
      ghost var rest := ParseSpecs(tokens[offset..]);
      offset := offset + 2;
      while true
        invariant 0 <= offset <= |tokens|
        invariant taken == TakeReferences(spec, tokens[offset..])
        decreases |tokens| - offset
      {
        if offset >= |tokens| {
          return None;
        }
        if tokens[offset] == Close(1) {
          assert tokens[offset..][1..] == tokens[offset + 1..];
          offset := offset + 1;
          break;
        }
        var reference := DecodeReference(tokens, offset, spec);
        if reference.None? {
          return None;
        }
        spec := reference.value.0;
        offset := reference.value.1;
      }
      assert taken == Some((spec, tokens[offset..]));
      PrependOne(specs, spec, ParseSpecs(tokens[offset..]));
      specs := specs + [spec];
    }
    assert tokens[offset..] == [];
    assert specs + [] == specs;
    return Some(specs);
  }

  lemma PrependOne(out: seq<ReadSpec>, spec: ReadSpec, rest: Option<seq<ReadSpec>>)
    ensures Prepend(out, Prepend([spec], rest)) == Prepend(out + [spec], rest)
  {
    if rest.Some? {
      assert out + ([spec] + rest.value) == (out + [spec]) + rest.value;
    }
  }

  // ----- The request as the standard writes it -----

  /** `None` asks for all properties. */
  datatype Reference = Reference(prop: Option<PropertyRef>)
  datatype ReadRequest = ReadRequest(key: ObjectKey, refs: seq<Reference>)

  ghost predicate WellFormed(requests: seq<ReadRequest>) {
    forall i :: 0 <= i < |requests| ==> (
      requests[i].key.HasIdentifier()
      && forall j :: 0 <= j < |requests[i].refs| ==>
           requests[i].refs[j].prop.Some? ==> requests[i].refs[j].prop.value.id != ALL_PROPERTIES)
  }

  function PrintReference(r: Reference): seq<Token> {
    match r.prop
    case None => [Context(0, UnsignedOctets(ALL_PROPERTIES))]
    case Some(prop) => [Context(0, UnsignedOctets(prop.id))] + PrintOptional(1, prop.index)
  }

  function PrintReferences(refs: seq<Reference>): seq<Token> {
    if refs == [] then [] else PrintReference(refs[0]) + PrintReferences(refs[1..])
  }

  function PrintRequests(requests: seq<ReadRequest>): seq<Token>
    requires forall i :: 0 <= i < |requests| ==> requests[i].key.HasIdentifier()
  {
    if requests == [] then []
    else [Context(0, KeyOctets(requests[0].key)), Open(1)]
         + (PrintReferences(requests[0].refs) + ([Close(1)] + PrintRequests(requests[1..])))
  }

  function Taken(spec: ReadSpec, r: Reference): ReadSpec {
    if r.prop.None? then spec.(all := true) else spec.(props := spec.props + [r.prop.value])
  }

  /** The references in order, every `all` collected into the flag. */
  function Collected(spec: ReadSpec, refs: seq<Reference>): ReadSpec
    decreases |refs|
  {
    if refs == [] then spec else Collected(Taken(spec, refs[0]), refs[1..])
  }

  function AllCollected(requests: seq<ReadRequest>): seq<ReadSpec> {
    if requests == [] then []
    else [Collected(ReadSpec(requests[0].key, [], false), requests[0].refs)] + AllCollected(requests[1..])
  }

  lemma {:induction false} ReferencesAreRead(spec: ReadSpec, refs: seq<Reference>, rest: seq<Token>)
    requires forall j :: 0 <= j < |refs| ==> refs[j].prop.Some? ==> refs[j].prop.value.id != ALL_PROPERTIES
    ensures TakeReferences(spec, PrintReferences(refs) + ([Close(1)] + rest)) == Some((Collected(spec, refs), rest))
    decreases |refs|
  {
    var end := [Close(1)] + rest;
    if refs == [] {
      assert PrintReferences(refs) + end == end && end[1..] == rest;
    } else {
      var more := PrintReferences(refs[1..]) + end;
      assert PrintReferences(refs) + end == PrintReference(refs[0]) + more;
      assert more[0] == Close(1) || (more[0].Context? && more[0].n == 0);
      ReferenceIsRead(spec, refs[0], more);
      ReferencesAreRead(Taken(spec, refs[0]), refs[1..], rest);
      assert (PrintReference(refs[0]) + more)[0].Context?;
      hide TakeReference, PrintReference;
    }
  }

  lemma ReferenceIsRead(spec: ReadSpec, r: Reference, rest: seq<Token>)
    requires r.prop.Some? ==> r.prop.value.id != ALL_PROPERTIES
    requires rest != [] && !(rest[0].Context? && rest[0].n == 1)
    ensures TakeReference(spec, PrintReference(r) + rest) ==
            Some((Taken(spec, r), rest))
  {
    match r.prop {
      case None =>
        UnsignedRoundTrip(ALL_PROPERTIES);
        assert (PrintReference(r) + rest)[1..] == rest;
      case Some(prop) =>
        UnsignedRoundTrip(prop.id);
        OptionalIsRead(1, prop.index, rest);
        assert (PrintReference(r) + rest)[1..] == PrintOptional(1, prop.index) + rest;
    }
    hide UnsignedOctets, JoinUnsigned, TakeOptional;
  }

  /** The parser inverts the printer: each request's references in order, `all` collected into its flag. */
  lemma {:induction false} ParsePrintedSpecs(requests: seq<ReadRequest>)
    requires WellFormed(requests)
    ensures ParseSpecs(PrintRequests(requests)) == Some(AllCollected(requests))
  {
    if requests != [] {
      var r, rest := requests[0], PrintRequests(requests[1..]);
      var body := PrintReferences(r.refs) + ([Close(1)] + rest);
      var ts := PrintRequests(requests);
      assert ts[1..][1..] == body && ts[1..][0] == Open(1);
      KeyRoundTrip(r.key);
      ReferencesAreRead(ReadSpec(r.key, [], false), r.refs, rest);
      ParsePrintedSpecs(requests[1..]);
      hide TakeReferences, PrintReferences, KeyOctets, KeyOf, Collected;
    }
  }

  // ----- Whatever is parsed could have been printed -----

  lemma {:induction false} ReferenceIsPrinted(spec: ReadSpec, ts: seq<Token>) returns (r: Reference)
    requires TakeReference(spec, ts).Some?
    ensures r.prop.Some? ==> r.prop.value.id != ALL_PROPERTIES
    ensures var (more, rest) := TakeReference(spec, ts).value;
            more == Taken(spec, r) && SameTokens(ts, PrintReference(r) + rest)
  {
    hide SameTokens, TakeUnsigned, TakeOptional, PrintOptional, UnsignedOctets;
    var (id, t1) := TakeUnsigned(ts, 0).value;
    UnsignedIsPrinted(ts, 0);
    if id == ALL_PROPERTIES {
      r := Reference(None);
    } else {
      var (index, rest) := TakeOptional(t1, 1);
      r := Reference(Some(PropertyRef(id, index)));
      OptionalIsPrinted(t1, 1);
      var first, p1 := [Context(0, UnsignedOctets(id))], PrintOptional(1, index);
      After(first, t1, p1 + rest);
      SameTransitively(ts, first + t1, first + (p1 + rest));
      assert first + (p1 + rest) == PrintReference(r) + rest;
    }
  }

  lemma {:induction false} ReferencesArePrinted(spec: ReadSpec, ts: seq<Token>) returns (refs: seq<Reference>)
    requires TakeReferences(spec, ts).Some?
    ensures forall j :: 0 <= j < |refs| ==> refs[j].prop.Some? ==> refs[j].prop.value.id != ALL_PROPERTIES
    ensures var (taken, rest) := TakeReferences(spec, ts).value;
            taken == Collected(spec, refs) && SameTokens(ts, PrintReferences(refs) + ([Close(1)] + rest))
    decreases |ts|
  {
    hide SameTokens, TakeReference, PrintReference;
    if ts[0] == Close(1) {
      refs := [];
      assert ts == PrintReferences([]) + ([Close(1)] + ts[1..]);
      SameAsItself(ts);
    } else {
      var (more, t1) := TakeReference(spec, ts).value;
      var r := ReferenceIsPrinted(spec, ts);
      var rest := ReferencesArePrinted(more, t1);
      refs := [r] + rest;
      var end := [Close(1)] + TakeReferences(more, t1).value.1;
      After(PrintReference(r), t1, PrintReferences(rest) + end);
      SameTransitively(ts, PrintReference(r) + t1, PrintReference(r) + (PrintReferences(rest) + end));
      assert refs[1..] == rest && PrintReferences(refs) + end == PrintReference(r) + (PrintReferences(rest) + end);
    }
  }

  /** Every request that is accepted is, its numbers put in the fewest octets, a printed one. */
  lemma {:induction false} ParsedSpecsArePrinted(ts: seq<Token>) returns (requests: seq<ReadRequest>)
    requires ParseSpecs(ts).Some?
    ensures WellFormed(requests)
    ensures ParseSpecs(ts) == Some(AllCollected(requests)) && SameTokens(ts, PrintRequests(requests))
    decreases |ts|
  {
    hide SameTokens, TakeHeader, TakeReferences, KeyOctets, PrintReferences, Collected;
    requests := [];
    if ts == [] {
      SameAsItself([]);
    } else {
      var (key, t1) := TakeHeader(ts).value;
      var spec := ReadSpec(key, [], false);
      var t2 := TakeReferences(spec, t1).value.1;
      HeaderIsPrinted(ts);
      var refs := ReferencesArePrinted(spec, t1);
      var more := ParsedSpecsArePrinted(t2);
      requests := [ReadRequest(key, refs)] + more;
      assert requests[1..] == more;
      var header, body := [Context(0, KeyOctets(key)), Open(1)], PrintReferences(refs);
      After([Close(1)], t2, PrintRequests(more));
      After(body, [Close(1)] + t2, [Close(1)] + PrintRequests(more));
      SameTransitively(t1, body + ([Close(1)] + t2), body + ([Close(1)] + PrintRequests(more)));
      After(header, t1, body + ([Close(1)] + PrintRequests(more)));
    }
  }

  // ----- The acknowledgement -----

  function DefaultProps(key: ObjectKey): seq<PropertyRef> {
    [PropertyRef(OBJECT_IDENTIFIER, None), PropertyRef(OBJECT_NAME, None), PropertyRef(OBJECT_TYPE, None),
     PropertyRef(DESCRIPTION, None)]
    + if IsAnalog(key.kind) || IsBinary(key.kind) then
        [PropertyRef(PRESENT_VALUE, None), PropertyRef(STATUS_FLAGS, None)]
      else if key.kind == DEVICE then
        [PropertyRef(OBJECT_LIST, None), PropertyRef(MAX_APDU_LENGTH_ACCEPTED, None),
         PropertyRef(SEGMENTATION_SUPPORTED, None), PropertyRef(VENDOR_IDENTIFIER, None)]
      else []
  }

  /** The properties a specification asks for: the flag wins over a list. */
  function Asked(spec: ReadSpec): seq<PropertyRef> {
    if spec.all then DefaultProps(spec.key) else spec.props
  }

  /** The properties that `all` asks for, by their numbers, in order, in place of any that are listed. */
  lemma AllInNumbers(key: ObjectKey, listed: seq<PropertyRef>)
    ensures Asked(ReadSpec(key, listed, false)) == listed
    ensures Asked(ReadSpec(key, listed, true)) ==
            [PropertyRef(75, None), PropertyRef(77, None), PropertyRef(79, None), PropertyRef(28, None)]
            + if key.kind <= 5 then [PropertyRef(85, None), PropertyRef(111, None)]
              else if key.kind == 8 then
                [PropertyRef(76, None), PropertyRef(62, None), PropertyRef(107, None), PropertyRef(120, None)]
              else []
  {
  }

  datatype Answer = Answer(prop: PropertyRef, result: Result<seq<AppValue>>)
  datatype ObjectAnswers = ObjectAnswers(key: ObjectKey, answers: seq<Answer>)

  function AnswersTo(contents: Contents, order: seq<ObjectKey>, key: ObjectKey,
                     props: seq<PropertyRef>): (r: seq<Answer>)
    ensures |r| == |props|
    ensures forall i :: 0 <= i < |r| ==> r[i] == Answer(props[i], ReadProperty(contents, order, key, props[i]))
  {
    seq(|props|, i requires 0 <= i < |props| => Answer(props[i], ReadProperty(contents, order, key, props[i])))
  }

  function Tokens(values: seq<AppValue>): (r: seq<Token>)
    ensures |r| == |values| && forall i :: 0 <= i < |r| ==> r[i] == App(values[i])
  {
    seq(|values|, i requires 0 <= i < |values| => App(values[i]))
  }

  function ResultTokens(result: Result<seq<AppValue>>): seq<Token> {
    match result
    case Ok(values) => [Open(4)] + (Tokens(values) + [Close(4)])
    case Err(f) => [Open(5), App(AppEnum(f.category)), App(AppEnum(f.code)), Close(5)]
  }

  function AnswerTokens(a: Answer): seq<Token> {
    [Context(2, UnsignedOctets(a.prop.id))] + (PrintOptional(3, a.prop.index) + ResultTokens(a.result))
  }

  function AnswersTokens(answers: seq<Answer>): seq<Token> {
    if answers == [] then [] else AnswersTokens(answers[..|answers| - 1]) + AnswerTokens(answers[|answers| - 1])
  }

  function ObjectTokens(o: ObjectAnswers): seq<Token>
    requires o.key.HasIdentifier()
  {
    [Context(0, KeyOctets(o.key)), Open(1)] + AnswersTokens(o.answers) + [Close(1)]
  }

  function AckTokens(objects: seq<ObjectAnswers>): seq<Token>
    requires forall i :: 0 <= i < |objects| ==> objects[i].key.HasIdentifier()
  {
    if objects == [] then []
    else AckTokens(objects[..|objects| - 1]) + ObjectTokens(objects[|objects| - 1])
  }

  /** The leading application values, up to the first other token. */
  function Values(ts: seq<Token>): (seq<AppValue>, seq<Token>) {
    if ts == [] || !ts[0].App? then ([], ts)
    else var (vs, rest) := Values(ts[1..]); ([ts[0].v] + vs, rest)
  }

  /** Reads either a bracketed value or a bracketed error. */
  function ReadResult(ts: seq<Token>): (r: Option<(Result<seq<AppValue>>, seq<Token>)>)
    ensures r.Some? ==> |r.value.1| < |ts|
  {
    if ts == [] then None
    else if ts[0] == Open(4) then
      var (vs, rest) := Values(ts[1..]);
      ValuesShorten(ts[1..]);
      if rest == [] || rest[0] != Close(4) then None else Some((Ok(vs), rest[1..]))
    else if |ts| >= 4 && ts[0] == Open(5) && ts[1].App? && ts[1].v.AppEnum? && ts[2].App? && ts[2].v.AppEnum?
        && ts[3] == Close(5) then
      Some((Err(Failure(ts[1].v.n, ts[2].v.n)), ts[4..]))
    else None
  }

  /** Reads one answer: property, optional index, result. */
  function ReadAnswer(ts: seq<Token>): (r: Option<(Answer, seq<Token>)>)
    ensures r.Some? ==> |r.value.1| < |ts|
  {
    match TakeUnsigned(ts, 2)
    case None => None
    case Some((id, t1)) =>
      var (index, t2) := TakeOptional(t1, 3);
      match ReadResult(t2)
      case None => None
      case Some((result, rest)) => Some((Answer(PropertyRef(id, index), result), rest))
  }

  lemma {:induction false} ValuesShorten(ts: seq<Token>)
    ensures |Values(ts).1| <= |ts|
  {
    if ts != [] && ts[0].App? {
      ValuesShorten(ts[1..]);
    }
  }

  function ReadAnswers(ts: seq<Token>): (r: Option<(seq<Answer>, seq<Token>)>)
    ensures r.Some? ==> |r.value.1| < |ts|
    decreases |ts|
  {
    if ts == [] then None
    else if ts[0] == Close(1) then Some(([], ts[1..]))
    else match ReadAnswer(ts)
         case None => None
         case Some((a, rest)) =>
           match ReadAnswers(rest)
           case None => None
           case Some((more, end)) => Some(([a] + more, end))
  }

  function ReadAck(ts: seq<Token>): Option<seq<ObjectAnswers>>
    decreases |ts|
  {
    if ts == [] then Some([])
    else match TakeHeader(ts)
         case None => None
         case Some((key, t1)) =>
           match ReadAnswers(t1)
           case None => None
           case Some((answers, t2)) =>
             match ReadAck(t2)
             case None => None
             case Some(rest) => Some([ObjectAnswers(key, answers)] + rest)
  }

  lemma {:induction false} ValuesAreRead(values: seq<AppValue>, rest: seq<Token>)
    requires rest != [] ==> !rest[0].App?
    ensures Values(Tokens(values) + rest) == (values, rest)
  {
    if values == [] {
      assert Tokens(values) + rest == rest;
    } else {
      assert (Tokens(values) + rest)[1..] == Tokens(values[1..]) + rest;
      ValuesAreRead(values[1..], rest);
      assert values == [values[0]] + values[1..];
    }
  }

  lemma AnswerIsRead(a: Answer, rest: seq<Token>)
    ensures ReadAnswer(AnswerTokens(a) + rest) == Some((a, rest))
  {
    hide UnsignedOctets, JoinUnsigned, TakeOptional, PrintOptional, Values, Tokens, ResultTokens;
    var ts, t2 := AnswerTokens(a) + rest, ResultTokens(a.result) + rest;
    assert ts[1..] == PrintOptional(3, a.prop.index) + t2;
    ResultIsRead(a.result, rest);
    UnsignedRoundTrip(a.prop.id);
    OptionalIsRead(3, a.prop.index, t2);
  }

  lemma ResultIsRead(result: Result<seq<AppValue>>, rest: seq<Token>)
    ensures ResultTokens(result) + rest != [] && !(ResultTokens(result) + rest)[0].Context?
    ensures ReadResult(ResultTokens(result) + rest) == Some((result, rest))
  {
    hide Tokens, Values;
    var ts := ResultTokens(result) + rest;
    match result {
      case Ok(values) =>
        assert ts[1..] == Tokens(values) + ([Close(4)] + rest);
        ValuesAreRead(values, [Close(4)] + rest);
      case Err(_) =>
        assert ts[4..] == rest;
    }
  }

  /** The answers printed front first: the loop appends, the reader reads from the front. */
  lemma {:induction false} AnswersFrontFirst(answers: seq<Answer>)
    requires answers != []
    ensures AnswersTokens(answers) == AnswerTokens(answers[0]) + AnswersTokens(answers[1..])
  {
    hide AnswerTokens;
    if |answers| == 1 {
      assert answers[..0] == [] && answers[1..] == [];
    } else {
      var init := answers[..|answers| - 1];
      AnswersFrontFirst(init);
      assert init[1..] == answers[1..][..|answers| - 2];
    }
  }

  lemma AnswerStarts(a: Answer)
    ensures AnswerTokens(a) != [] && AnswerTokens(a)[0].Context?
  {
  }

  lemma {:induction false} AnswersAreRead(answers: seq<Answer>, rest: seq<Token>)
    ensures ReadAnswers(AnswersTokens(answers) + ([Close(1)] + rest)) == Some((answers, rest))
  {
    hide ReadAnswer, AnswerTokens;
    var end := [Close(1)] + rest;
    if answers == [] {
      assert AnswersTokens(answers) + end == end && end[1..] == rest;
    } else {
      hide AnswersTokens;
      AnswersFrontFirst(answers);
      var more := AnswersTokens(answers[1..]) + end;
      assert AnswersTokens(answers) + end == AnswerTokens(answers[0]) + more;
      AnswerStarts(answers[0]);
      AnswerIsRead(answers[0], more);
      AnswersAreRead(answers[1..], rest);
      assert answers == [answers[0]] + answers[1..];
    }
  }

  lemma {:induction false} AckFrontFirst(objects: seq<ObjectAnswers>)
    requires objects != [] && forall i :: 0 <= i < |objects| ==> objects[i].key.HasIdentifier()
    ensures AckTokens(objects) == ObjectTokens(objects[0]) + AckTokens(objects[1..])
  {
    hide ObjectTokens, ObjectKey.HasIdentifier;
    if |objects| == 1 {
      assert objects[..0] == [] && objects[1..] == [];
    } else {
      var init := objects[..|objects| - 1];
      AckFrontFirst(init);
      var rest, last := objects[1..], objects[|objects| - 1];
      assert init[1..] == rest[..|rest| - 1] && rest[|rest| - 1] == last;
      var first := ObjectTokens(objects[0]);
      assert (first + AckTokens(init[1..])) + ObjectTokens(last) == first + (AckTokens(init[1..]) + ObjectTokens(last));
    }
  }

  lemma {:induction false} AckIsRead(objects: seq<ObjectAnswers>)
    requires forall i :: 0 <= i < |objects| ==> objects[i].key.HasIdentifier()
    ensures ReadAck(AckTokens(objects)) == Some(objects)
  {
    if objects != [] {
      var o, rest := objects[0], AckTokens(objects[1..]);
      AckFrontFirst(objects);
      ObjectIsRead(o, rest);
      AckIsRead(objects[1..]);
      assert objects == [o] + objects[1..];
      hide TakeHeader, ReadAnswers, ObjectTokens, AckTokens;
    }
  }

  lemma ObjectIsRead(o: ObjectAnswers, rest: seq<Token>)
    requires o.key.HasIdentifier()
    ensures var ts := ObjectTokens(o) + rest;
            ts != [] && TakeHeader(ts).Some? && TakeHeader(ts).value.0 == o.key
            && ReadAnswers(TakeHeader(ts).value.1) == Some((o.answers, rest))
  {
    var ts, body := ObjectTokens(o) + rest, AnswersTokens(o.answers) + ([Close(1)] + rest);
    assert ts == [Context(0, KeyOctets(o.key)), Open(1)] + body;
    assert ts[1..][1..] == body && ts[1..][0] == Open(1);
    KeyRoundTrip(o.key);
    AnswersAreRead(o.answers, rest);
    hide ReadAnswers, AnswersTokens, KeyOctets, KeyOf;
  }

  function AllAnswers(contents: Contents, order: seq<ObjectKey>, specs: seq<ReadSpec>): (r: seq<ObjectAnswers>)
    ensures |r| == |specs|
    ensures forall i :: 0 <= i < |r| ==>
              r[i] == ObjectAnswers(specs[i].key, AnswersTo(contents, order, specs[i].key, Asked(specs[i])))
  {
    seq(|specs|, i requires 0 <= i < |specs| =>
      ObjectAnswers(specs[i].key, AnswersTo(contents, order, specs[i].key, Asked(specs[i]))))
  }

  /**
   `encodeRPMACK`. A reader of the acknowledgement finds one result per asked
   property, in order, each a value or the property's own error; the only
   failure is an object key that no identifier can carry.
   */
  method EncodeAck(contents: Contents, order: seq<ObjectKey>, specs: seq<ReadSpec>) returns (r: Option<seq<Token>>)
    ensures r.Some? <==> forall s | s in specs :: s.key.HasIdentifier()
    ensures r.Some? ==> ReadAck(r.value) == Some(AllAnswers(contents, order, specs))
  {
    hide ReadAck, ReadProperty, Asked, AnswersTokens, KeyOctets;
    var out := [];
    ghost var objects := [];
    for i := 0 to |specs|
      invariant forall s | s in specs[..i] :: s.key.HasIdentifier()
      invariant objects == AllAnswers(contents, order, specs[..i])
      invariant out == AckTokens(objects)
    {
      var spec := specs[i];
      assert spec in specs && specs[..i + 1] == specs[..i] + [spec];
      if !spec.key.HasIdentifier() {
        return None;
      }
      var props := spec.props;
      if spec.all {
        props := DefaultProps(spec.key);
      }
      assert props == Asked(spec) by { AskedIs(spec); }
      var answers := EncodeAnswers(contents, order, spec.key, props);
      ghost var o := ObjectAnswers(spec.key, AnswersTo(contents, order, spec.key, props));
      assert (objects + [o])[..|objects|] == objects;
      out := out + ([Context(0, KeyOctets(spec.key)), Open(1)] + answers + [Close(1)]);
      objects := objects + [o];
    }
    assert specs[..|specs|] == specs;
    AckIsRead(objects);
    return Some(out);
  }

  lemma AskedIs(spec: ReadSpec)
    ensures Asked(spec) == if spec.all then DefaultProps(spec.key) else spec.props
  {
  }

  /** The inner loop over one object's properties. */
  method EncodeAnswers(contents: Contents, order: seq<ObjectKey>, key: ObjectKey, props: seq<PropertyRef>)
      returns (out: seq<Token>)
    ensures out == AnswersTokens(AnswersTo(contents, order, key, props))
  {
    hide ReadProperty, AnswerTokens;
    out := [];
    for i := 0 to |props|
      invariant out == AnswersTokens(AnswersTo(contents, order, key, props[..i]))
    {
      var entry := EncodeAnswer(props[i], ReadProperty(contents, order, key, props[i]));
      assert AnswersTo(contents, order, key, props[..i + 1])[..i] == AnswersTo(contents, order, key, props[..i]);
      out := out + entry;
    }
    assert props[..|props|] == props;
  }

  method EncodeAnswer(prop: PropertyRef, result: Result<seq<AppValue>>) returns (entry: seq<Token>)
    ensures entry == AnswerTokens(Answer(prop, result))
  {
    hide UnsignedOctets, Tokens, ResultTokens;
    entry := [Context(2, UnsignedOctets(prop.id))];
    if prop.index.Some? {
      entry := entry + [Context(3, UnsignedOctets(prop.index.value))];
    }
    ghost var head := entry;
    assert head == [Context(2, UnsignedOctets(prop.id))] + PrintOptional(3, prop.index);
    match result {
      case Err(f) =>
        entry := entry + [Open(5), App(AppEnum(f.category)), App(AppEnum(f.code)), Close(5)];
      case Ok(values) =>
        entry := entry + [Open(4)];
        entry := entry + Tokens(values) + [Close(4)];
        assert entry == head + ([Open(4)] + (Tokens(values) + [Close(4)]));
    }
    assert entry == head + ResultTokens(result) by { ResultTokensIs(result); }
  }

  lemma ResultTokensIs(result: Result<seq<AppValue>>)
    ensures ResultTokens(result) ==
            match result
            case Ok(values) => [Open(4)] + (Tokens(values) + [Close(4)])
            case Err(f) => [Open(5), App(AppEnum(f.category)), App(AppEnum(f.code)), Close(5)]
  {
  }
}
