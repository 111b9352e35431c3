/**
 The text form of a BACnetDestination: printed for the command line, and found
 again in a tool's output by a regular expression.
 */
module Destinations {
  import opened Wire
  import opened Numerals

  datatype Destination = Destination(days: seq<nat>, fromTime: string, toTime: string, device: nat, process: nat,
                                     confirmed: bool, transitions: seq<string>)

  /** The groups of one match. */
  datatype Groups = Groups(days: string, fromTime: string, toTime: string, device: string, process: string,
                           confirmed: bool, transitions: string)

  // ----- The character classes -----

  datatype Class = DaysClass | TimeClass | DigitClass | WordClass

  predicate In(c: char, k: Class) {
    match k
    case DaysClass => '0' <= c <= '9' || c == ','
    case TimeClass => '0' <= c <= '9' || c == ':' || c == '.'
    case DigitClass => '0' <= c <= '9'
    case WordClass => 'a' <= c <= 'z' || c == ',' || c == '-'
  }

  predicate All(s: string, k: Class) {
    forall i :: 0 <= i < |s| ==> In(s[i], k)
  }

  /** What the groups of a match may hold. */
  predicate Fits(g: Groups) {
    && All(g.days, DaysClass) && All(g.transitions, WordClass)
    && g.fromTime != "" && All(g.fromTime, TimeClass) && g.toTime != "" && All(g.toTime, TimeClass)
    && g.device != "" && All(g.device, DigitClass) && g.process != "" && All(g.process, DigitClass)
  }

  const L1 := "(ValidDays=["
  const L2 := "];FromTime="
  const L3 := ";ToTime="
  const L4 := ";Recipient=Device(type=8,instance="
  const L5 := ");ProcessIdentifier="
  const L6 := ";ConfirmedNotify="
  const L7 := ";Transitions=["
  const L8 := "])"

  function Truth(b: bool): string {
    if b then "true" else "false"
  }

  /** The text a match spans, from its last group backwards, before some further text. */
  function From7(g: Groups, r: string): string { g.transitions + (L8 + r) }
  function From6(g: Groups, r: string): string { Truth(g.confirmed) + (L7 + From7(g, r)) }
  function From5(g: Groups, r: string): string { g.process + (L6 + From6(g, r)) }
  function From4(g: Groups, r: string): string { g.device + (L5 + From5(g, r)) }
  function From3(g: Groups, r: string): string { g.toTime + (L4 + From4(g, r)) }
  function From2(g: Groups, r: string): string { g.fromTime + (L3 + From3(g, r)) }
  function From1(g: Groups, r: string): string { g.days + (L2 + From2(g, r)) }
  function Form(g: Groups, r: string): string { L1 + From1(g, r) }

  // ----- The regular expression, left to right -----

  function Literal(text: string, lit: string): Option<string> {
    if lit <= text then Some(text[|lit|..]) else None
  }

  /** The longest run of a class, then a literal. The literals begin outside the class, so a shorter run cannot help. */
  function RunThen(text: string, k: Class, lit: string): Option<(string, string)> {
    var n := RunLength(text, k);
    match Literal(text[n..], lit)
    case None => None
    case Some(rest) => Some((text[..n], rest))
  }

  function RunLength(text: string, k: Class): (n: nat)
    ensures n <= |text| && All(text[..n], k) && (n < |text| ==> !In(text[n], k))
  {
    if text == "" || !In(text[0], k) then 0 else 1 + RunLength(text[1..], k)
  }

  function NonEmpty(r: Option<(string, string)>): Option<(string, string)> {
    if r.Some? && r.value.0 == "" then None else r
  }

  function TruthThen(text: string, lit: string): Option<(bool, string)> {
    match Literal(text, "true" + lit)
    case Some(rest) => Some((true, rest))
    case None =>
      match Literal(text, "false" + lit)
      case Some(rest) => Some((false, rest))
      case None => None
  }

  function Match(text: string): Option<(Groups, string)> {
    match Literal(text, L1) case None => None case Some(t1) =>
    match RunThen(t1, DaysClass, L2) case None => None case Some((days, t2)) =>
    match NonEmpty(RunThen(t2, TimeClass, L3)) case None => None case Some((fromTime, t3)) =>
    match NonEmpty(RunThen(t3, TimeClass, L4)) case None => None case Some((toTime, t4)) =>
    match NonEmpty(RunThen(t4, DigitClass, L5)) case None => None case Some((device, t5)) =>
    match NonEmpty(RunThen(t5, DigitClass, L6)) case None => None case Some((process, t6)) =>
    match TruthThen(t6, L7) case None => None case Some((confirmed, t7)) =>
    match RunThen(t7, WordClass, L8) case None => None case Some((transitions, t8)) =>
      Some((Groups(days, fromTime, toTime, device, process, confirmed, transitions), t8))
  }

  lemma LiteralIff(text: string, lit: string, rest: string)
    ensures Literal(text, lit) == Some(rest) <==> text == lit + rest
  {
  }

  /** A run followed by a literal is found in exactly one way. */
  lemma RunThenIff(text: string, k: Class, lit: string, run: string, rest: string)
    requires lit != "" && !In(lit[0], k)
    ensures RunThen(text, k, lit) == Some((run, rest)) <==> All(run, k) && text == run + (lit + rest)
  {
    var n := RunLength(text, k);
    LiteralIff(text[n..], lit, rest);
    if RunThen(text, k, lit) == Some((run, rest)) {
      assert text == text[..n] + text[n..];
    }
    if All(run, k) && text == run + (lit + rest) {
      assert text[|run|] == lit[0];
      assert forall i :: 0 <= i < |run| ==> text[i] == run[i];
      assert n == |run|;
      assert text[..n] == run && text[n..] == lit + rest;
    }
    hide RunLength, Literal;
  }

  lemma TruthThenIff(text: string, confirmed: bool, rest: string)
    ensures TruthThen(text, L7) == Some((confirmed, rest)) <==> text == Truth(confirmed) + (L7 + rest)
  {
    LiteralIff(text, "true" + L7, rest);
    LiteralIff(text, "false" + L7, rest);
    assert ("true" + L7) + rest == "true" + (L7 + rest) && ("false" + L7) + rest == "false" + (L7 + rest);
    var t, f := "true" + L7, "false" + L7;
    assert t[0] == 't' && f[0] == 'f';
    if text == f + rest {
      assert text[0] == 'f';
      assert Literal(text, t) == None;
    }
    hide Literal;
  }

  lemma MatchSound(text: string)
    requires Match(text).Some?
    ensures var (g, rest) := Match(text).value; Fits(g) && text == Form(g, rest)
  {
    var (g, rest) := Match(text).value;
    var t1 := Literal(text, L1).value;
    var t2 := RunThen(t1, DaysClass, L2).value.1;
    var t3 := RunThen(t2, TimeClass, L3).value.1;
    var t4 := RunThen(t3, TimeClass, L4).value.1;
    var t5 := RunThen(t4, DigitClass, L5).value.1;
    var t6 := RunThen(t5, DigitClass, L6).value.1;
    var t7 := TruthThen(t6, L7).value.1;
    hide Literal, RunThen, TruthThen, All;
    LiteralIff(text, L1, t1);
    RunThenIff(t1, DaysClass, L2, g.days, t2);
    RunThenIff(t2, TimeClass, L3, g.fromTime, t3);
    RunThenIff(t3, TimeClass, L4, g.toTime, t4);
    RunThenIff(t4, DigitClass, L5, g.device, t5);
    RunThenIff(t5, DigitClass, L6, g.process, t6);
    TruthThenIff(t6, g.confirmed, t7);
    RunThenIff(t7, WordClass, L8, g.transitions, rest);
    hide Match, Truth, L1, L2, L3, L4, L5, L6, L7, L8;
  }

  lemma MatchComplete(g: Groups, rest: string)
    requires Fits(g)
    ensures Match(Form(g, rest)) == Some((g, rest))
  {
    hide Literal, RunThen, TruthThen, All, Truth;
    LiteralIff(Form(g, rest), L1, From1(g, rest));
    RunThenIff(From1(g, rest), DaysClass, L2, g.days, From2(g, rest));
    RunThenIff(From2(g, rest), TimeClass, L3, g.fromTime, From3(g, rest));
    RunThenIff(From3(g, rest), TimeClass, L4, g.toTime, From4(g, rest));
    RunThenIff(From4(g, rest), DigitClass, L5, g.device, From5(g, rest));
    RunThenIff(From5(g, rest), DigitClass, L6, g.process, From6(g, rest));
    TruthThenIff(From6(g, rest), g.confirmed, From7(g, rest));
    RunThenIff(From7(g, rest), WordClass, L8, g.transitions, rest);
    hide From1, From2, From3, From4, From5, From6, From7, Form;
  }

  /** A match is found exactly where the text has the form, and its groups are what stands there. */
  lemma MatchIff(text: string, g: Groups, rest: string)
    ensures Match(text) == Some((g, rest)) <==> Fits(g) && text == Form(g, rest)
  {
    hide Match, Form, Fits;
    if Match(text) == Some((g, rest)) {
      MatchSound(text);
    }
    if Fits(g) && text == Form(g, rest) {
      MatchComplete(g, rest);
    }
  }

  // ----- Lists in groups -----

  /** `",".join(...)`. */
  function Join(parts: seq<string>): string {
    if parts == [] then "" else if |parts| == 1 then parts[0] else parts[0] + ("," + Join(parts[1..]))
  }

  /** `[x for x in s.split(",") if x]`, after some text of the first field. */
  function Fields(field: string, s: string): seq<string>
    decreases |s|
  {
    if s == "" then if field == "" then [] else [field]
    else if s[0] == ',' then (if field == "" then [] else [field]) + Fields("", s[1..])
    else Fields(field + [s[0]], s[1..])
  }

  predicate NoComma(s: string) {
    forall i :: 0 <= i < |s| ==> s[i] != ','
  }

  lemma {:induction false} FieldsSkip(field: string, part: string, s: string)
    requires NoComma(part)
    ensures Fields(field, part + s) == Fields(field + part, s)
    decreases |part|
  {
    if part == "" {
      assert part + s == s && field + part == field;
    } else {
      assert (part + s)[0] == part[0] && (part + s)[1..] == part[1..] + s;
      FieldsSkip(field + [part[0]], part[1..], s);
      assert field + [part[0]] + part[1..] == field + part;
    }
  }

  lemma {:induction false} FieldsJoin(parts: seq<string>)
    requires forall i :: 0 <= i < |parts| ==> parts[i] != "" && NoComma(parts[i])
    ensures Fields("", Join(parts)) == parts
  {
    if |parts| == 1 {
      FieldsSkip("", parts[0], "");
      assert parts[0] + "" == parts[0] && "" + parts[0] == parts[0];
    } else if |parts| > 1 {
      var rest := "," + Join(parts[1..]);
      FieldsSkip("", parts[0], rest);
      assert "" + parts[0] == parts[0] && rest[1..] == Join(parts[1..]);
      FieldsJoin(parts[1..]);
      assert parts == [parts[0]] + parts[1..];
    }
  }

  function Decimals(ns: seq<nat>): (r: seq<string>)
    ensures |r| == |ns| && forall i :: 0 <= i < |r| ==> r[i] == Decimal(ns[i])
  {
    seq(|ns|, i requires 0 <= i < |ns| => Decimal(ns[i]))
  }

  /** `int(s)` on a text of digits. */
  function ToInt(s: string): nat {
    Accumulate(s, 10, 0)
  }

  function ToInts(parts: seq<string>): (r: seq<nat>)
    ensures |r| == |parts| && forall i :: 0 <= i < |r| ==> r[i] == ToInt(parts[i])
  {
    seq(|parts|, i requires 0 <= i < |parts| => ToInt(parts[i]))
  }

  // ----- Printing and parsing -----

  function GroupsOf(d: Destination): Groups {
    Groups(Join(Decimals(d.days)), d.fromTime, d.toTime, Decimal(d.device), Decimal(d.process), d.confirmed,
           Join(d.transitions))
  }

  /** `destination_ascii`. */
  function Ascii(d: Destination): string {
    Form(GroupsOf(d), "")
  }

  function Interpreted(g: Groups): Destination {
    Destination(ToInts(Fields("", g.days)), g.fromTime, g.toTime, ToInt(g.device), ToInt(g.process), g.confirmed,
                Fields("", g.transitions))
  }

  /** Times in digits, colons and points; transitions in lower-case letters and hyphens. */
  predicate Printable(d: Destination) {
    && d.fromTime != "" && All(d.fromTime, TimeClass) && d.toTime != "" && All(d.toTime, TimeClass)
    && forall i :: 0 <= i < |d.transitions| ==>
         d.transitions[i] != "" && All(d.transitions[i], WordClass) && NoComma(d.transitions[i])
  }

  /** `finditer`: every match, left to right, none overlapping. */
  function FindAll(text: string): seq<Destination>
    decreases |text|
  {
    if text == "" then []
    else match Match(text)
         case None => FindAll(text[1..])
         case Some((g, rest)) => assert |rest| < |text| by { MatchShortens(text); } [Interpreted(g)] + FindAll(rest)
  }

  lemma MatchShortens(text: string)
    requires Match(text).Some?
    ensures |Match(text).value.1| < |text|
  {
    MatchSound(text);
    hide Match, Fits;
  }

  /** `parse_destinations`: appends in a loop over the matches. */
  method ParseDestinations(text: string) returns (out: seq<Destination>)
    ensures out == FindAll(text)
  {
    hide Match, Interpreted;
    out := [];
    var rest := text;
    while rest != ""
      invariant out + FindAll(rest) == FindAll(text)
      decreases |rest|
    {
      var m := Match(rest);
      if m.None? {
        rest := rest[1..];
      } else {
        MatchShortens(rest);
        var d := Interpreted(m.value.0);
        assert out + ([d] + FindAll(m.value.1)) == (out + [d]) + FindAll(m.value.1);
        out := out + [d];
        rest := m.value.1;
      }
    }
    assert out + [] == out;
  }

  lemma {:induction false} JoinIn(parts: seq<string>, k: Class)
    requires In(',', k) && forall i :: 0 <= i < |parts| ==> All(parts[i], k)
    ensures All(Join(parts), k)
  {
    if |parts| > 1 {
      JoinIn(parts[1..], k);
    }
  }

  lemma {:induction false} DecimalIn(n: nat)
    ensures Decimal(n) != "" && All(Decimal(n), DigitClass) && All(Decimal(n), DaysClass) && NoComma(Decimal(n))
    ensures ToInt(Decimal(n)) == n
  {
    DecimalDigits(n);
  }

  lemma GroupsFit(d: Destination)
    requires Printable(d)
    ensures Fits(GroupsOf(d)) && Interpreted(GroupsOf(d)) == d
  {
    var days := Decimals(d.days);
    forall i | 0 <= i < |days|
      ensures All(days[i], DaysClass) && days[i] != "" && NoComma(days[i]) && ToInt(days[i]) == d.days[i]
    {
      DecimalIn(d.days[i]);
    }
    DecimalIn(d.device);
    DecimalIn(d.process);
    JoinIn(days, DaysClass);
    JoinIn(d.transitions, WordClass);
    FieldsJoin(days);
    FieldsJoin(d.transitions);
    assert ToInts(days) == d.days;
    hide Decimal, ToInt, All, NoComma, Fields, Join;
  }

  lemma FormAppends(g: Groups, r: string)
    ensures Form(g, "") + r == Form(g, r)
  {
    assert From7(g, "") + r == From7(g, r);
    assert From6(g, "") + r == From6(g, r) by { Reassociate(Truth(g.confirmed), L7, From7(g, ""), r); }
    assert From5(g, "") + r == From5(g, r) by { Reassociate(g.process, L6, From6(g, ""), r); }
    assert From4(g, "") + r == From4(g, r) by { Reassociate(g.device, L5, From5(g, ""), r); }
    assert From3(g, "") + r == From3(g, r) by { Reassociate(g.toTime, L4, From4(g, ""), r); }
    assert From2(g, "") + r == From2(g, r) by { Reassociate(g.fromTime, L3, From3(g, ""), r); }
    assert From1(g, "") + r == From1(g, r) by { Reassociate(g.days, L2, From2(g, ""), r); }
  }

  lemma Reassociate(a: string, b: string, c: string, r: string)
    ensures (a + (b + c)) + r == a + (b + (c + r))
  {
  }

  // ----- The round trip -----

  /** The printed destinations, each after its separator, and a last separator. */
  function Separated(seps: seq<string>, ds: seq<Destination>): string
    requires |seps| == |ds| + 1
  {
    if ds == [] then seps[0] else seps[0] + (Ascii(ds[0]) + Separated(seps[1..], ds[1..]))
  }

  predicate Contains(s: string, lit: string) {
    exists i :: 0 <= i <= |s| && lit <= s[i..]
  }

  /** Text without the opening of a destination, before nothing or another destination, is skipped. */
  lemma {:induction false} FindAllSkips(sep: string, rest: string)
    requires !Contains(sep, L1) && (rest == "" || rest[0] == '(')
    ensures FindAll(sep + rest) == FindAll(rest)
    decreases |sep|
  {
    hide Match, Contains;
    if sep == "" {
      assert sep + rest == rest;
    } else {
      var text := sep + rest;
      assert text[0] == sep[0] && text[1..] == sep[1..] + rest;
      NoOpening(sep, rest);
      NoMatchHere(text);
      FindAllSkips(sep[1..], rest);
    }
  }

  /** The opening has its only parenthesis in front, so it cannot begin in a separator and end in a destination. */
  lemma NoOpening(sep: string, rest: string)
    requires sep != "" && !Contains(sep, L1) && (rest == "" || rest[0] == '(')
    ensures !(L1 <= sep + rest) && !Contains(sep[1..], L1)
  {
    assert sep[0..] == sep;
    assert forall i :: 0 < i < |L1| ==> L1[i] != '(';
    assert rest != "" ==> (sep + rest)[|sep|] == rest[0];
    forall i | 0 <= i <= |sep[1..]| ensures !(L1 <= sep[1..][i..]) {
      assert sep[1..][i..] == sep[i + 1..];
    }
  }

  lemma NoMatchHere(text: string)
    requires !(L1 <= text)
    ensures Match(text) == None
  {
    hide RunThen, TruthThen;
  }

  lemma {:induction false} FindAllFinds(d: Destination, rest: string)
    requires Printable(d)
    ensures FindAll(Ascii(d) + rest) == [d] + FindAll(rest)
  {
    hide Printable, Match, Form, GroupsOf, Interpreted, Fits;
    var g := GroupsOf(d);
    GroupsFit(d);
    FormAppends(g, rest);
    MatchComplete(g, rest);
    assert Form(g, rest) != "" by { StartsWithParen(g, rest); }
  }

  lemma StartsWithParen(g: Groups, rest: string)
    ensures Form(g, rest) != "" && Form(g, rest)[0] == '('
  {
  }

  /**
   Any printed destinations, between separators that do not contain the opening
   of one, are found again in order, empty day and transition lists included.
   */
  lemma {:induction false} PrintedDestinationsAreFound(seps: seq<string>, ds: seq<Destination>)
    requires |seps| == |ds| + 1 && forall i :: 0 <= i < |seps| ==> !Contains(seps[i], L1)
    requires forall i :: 0 <= i < |ds| ==> Printable(ds[i])
    ensures FindAll(Separated(seps, ds)) == ds
  {
    hide Contains, Printable, FindAll, Ascii;
    if ds == [] {
      FindAllSkips(seps[0], "");
      assert seps[0] + "" == seps[0];
      assert FindAll("") == [] by { FindAllNothing(); }
    } else {
      var d, rest := ds[0], Separated(seps[1..], ds[1..]);
      AsciiStartsWithParen(d, rest);
      FindAllSkips(seps[0], Ascii(d) + rest);
      FindAllFinds(d, rest);
      PrintedDestinationsAreFound(seps[1..], ds[1..]);
      assert ds == [d] + ds[1..];
    }
  }

  lemma AsciiStartsWithParen(d: Destination, rest: string)
    ensures Ascii(d) + rest != "" && (Ascii(d) + rest)[0] == '('
  {
    StartsWithParen(GroupsOf(d), "");
    hide Form;
  }

  lemma FindAllNothing()
    ensures FindAll("") == []
  {
  }

  // ----- The printed form, letter by letter -----

  predicate IsDigit(c: char) {
    48 <= c as int <= 57
  }

  /** The characters each part may have, by their codes: digits, comma, colon, point, lower-case letters, hyphen. */
  lemma ClassesExactly(c: char)
    ensures In(c, DigitClass) <==> IsDigit(c)
    ensures In(c, DaysClass) <==> IsDigit(c) || c as int == 44
    ensures In(c, TimeClass) <==> IsDigit(c) || c as int == 58 || c as int == 46
    ensures In(c, WordClass) <==> 97 <= c as int <= 122 || c as int == 44 || c as int == 45
  {
  }

  predicate IsClock(time: string) {
    time != "" && forall i :: 0 <= i < |time| ==> IsDigit(time[i]) || time[i] == ':' || time[i] == '.'
  }

  predicate IsTransition(t: string) {
    t == "to-offnormal" || t == "to-fault" || t == "to-normal"
  }

  /** Destinations with times in digits, colons and points and with the standard's transitions can be printed. */
  lemma StandardIsPrintable(d: Destination)
    requires IsClock(d.fromTime) && IsClock(d.toTime)
    requires forall i :: 0 <= i < |d.transitions| ==> IsTransition(d.transitions[i])
    ensures Printable(d) && FindAll(Ascii(d)) == [d]
  {
    hide NoComma, FindAll, Ascii, IsTransition, All, IsClock;
    forall i | 0 <= i < |d.transitions|
      ensures d.transitions[i] != "" && All(d.transitions[i], WordClass) && NoComma(d.transitions[i])
    {
      TransitionIsWord(d.transitions[i]);
    }
    ClockIsTime(d.fromTime);
    ClockIsTime(d.toTime);
    FoundAgainExactly(d);
  }

  lemma ClockIsTime(time: string)
    requires IsClock(time)
    ensures time != "" && All(time, TimeClass)
  {
  }

  lemma TransitionIsWord(t: string)
    requires IsTransition(t)
    ensures t != "" && All(t, WordClass) && NoComma(t)
  {
  }

  /** What is printed, written out. */
  lemma PrintedForm(d: Destination)
    ensures Ascii(d) ==
            "(ValidDays=[" + (Join(Decimals(d.days)) + ("];FromTime=" + (d.fromTime + (";ToTime=" + (d.toTime
            + (";Recipient=Device(type=8,instance=" + (Decimal(d.device) + (");ProcessIdentifier=" + (Decimal(d.process)
            + (";ConfirmedNotify=" + ((if d.confirmed then "true" else "false")
            + (";Transitions=[" + (Join(d.transitions) + "])")))))))))))))
  {
    hide Join, Decimals, Decimal;
    assert L8 + "" == L8;
  }

  // ----- What is found can be printed -----

  lemma {:induction false} FieldsIn(field: string, s: string)
    requires All(field, WordClass) && NoComma(field) && All(s, WordClass)
    ensures forall f | f in Fields(field, s) :: f != "" && All(f, WordClass) && NoComma(f)
    decreases |s|
  {
    if s != "" {
      FieldsIn(if s[0] == ',' then "" else field + [s[0]], s[1..]);
    }
  }

  lemma InterpretedIsPrintable(g: Groups)
    requires Fits(g)
    ensures Printable(Interpreted(g))
  {
    FieldsIn("", g.transitions);
    hide Fields, All, NoComma, ToInt;
    var ts := Interpreted(g).transitions;
    assert forall i :: 0 <= i < |ts| ==> ts[i] in ts;
  }

  /** Whatever stands in a text, what is found in it can be printed and found again. */
  lemma {:induction false} FoundIsPrintable(text: string)
    ensures forall d | d in FindAll(text) :: Printable(d)
    decreases |text|
  {
    hide Match, Printable, Fits, Interpreted;
    if text != "" {
      if Match(text).Some? {
        MatchSound(text);
        MatchShortens(text);
        InterpretedIsPrintable(Match(text).value.0);
        FoundIsPrintable(Match(text).value.1);
      } else {
        FoundIsPrintable(text[1..]);
      }
    }
  }

  /** A printed destination is found again if and only if its texts are of the kinds the expression takes. */
  lemma FoundAgainExactly(d: Destination)
    ensures FindAll(Ascii(d)) == [d] <==> Printable(d)
  {
    hide Printable, FindAll, Ascii;
    if Printable(d) {
      FindAllFinds(d, "");
      FindAllNothing();
      assert Ascii(d) + "" == Ascii(d) && [d] + [] == [d];
    }
    if FindAll(Ascii(d)) == [d] {
      FoundIsPrintable(Ascii(d));
      assert d in [d];
    }
  }
}
