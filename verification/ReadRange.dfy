/**
 ReadRange on a Trend Log, as the Go adapter and the C# device select records
 (section 15.8 of ANSI/ASHRAE 135). A log is the sequence of its time stamps;
 the record at 1-based position k has sequence number k.
 */
module ReadRange {
  import opened Wire

  const INT_MAX: int := 0x7FFF_FFFF

  /** `None` for a reference time with an unspecified field. */
  datatype Request =
    | All
    | ByPosition(reference: uint32, count: int32)
    | BySequence(reference: uint32, count: int32)
    | ByTime(time: Option<int>, count: int32)

  /** Records lo..hi (0-based, hi excluded), the first-item and last-item flags, and the number of items announced. */
  datatype Outcome =
    | Refused(category: string, code: string)
    | Range(lo: nat, hi: nat, first: bool, last: bool, items: nat)

  const EMPTY: Outcome := Range(0, 0, false, false, 0)
  const INCONSISTENT: Outcome := Refused("services", "inconsistent-parameters")

  ghost predicate Increasing(times: seq<int>) {
    forall i, j :: 0 <= i < j < |times| ==> times[i] < times[j]
  }

  function Min(a: int, b: int): int {
    if a < b then a else b
  }

  function Max(a: int, b: int): int {
    if a > b then a else b
  }

  /** A non-empty selection and its flags, or the empty one. */
  function RangeOf(n: nat, lo: nat, hi: int): (r: Outcome)
    requires hi <= n
    ensures r.Range? && r.lo <= r.hi <= n
  {
    if lo < hi then Range(lo, hi, lo == 0, hi == n, hi - lo) else EMPTY
  }

  // ----- What a request means -----

  /** No record qualifies. */
  ghost predicate Nothing(times: seq<int>, r: Request) {
    match r
    case All => times == []
    case ByTime(Some(t), count) =>
      forall i :: 0 <= i < |times| ==> if count > 0 then times[i] <= t else times[i] >= t
    case ByTime(None, _) => true
    case _ => r.reference < 1 || r.reference > |times|
  }

  /** Records lo..hi are as many as `count` allows: from a fixed first record on, or up to a fixed last one. */
  predicate AsMany(n: nat, lo: nat, hi: nat, count: int) {
    if count > 0 then hi - lo <= count && (hi - lo == count || hi == n)
    else hi - lo <= -count && (hi - lo == -count || lo == 0)
  }

  /** The records a request selects, when there are any. */
  ghost predicate Meant(times: seq<int>, r: Request, lo: nat, hi: nat) {
    lo < hi <= |times| &&
    match r
    case All => lo == 0 && hi == |times|
    case ByTime(Some(t), count) =>
      AsMany(|times|, lo, hi, count) &&
      (forall i :: 0 <= i < |times| ==>
         if count > 0 then times[i] > t <==> i >= lo else times[i] < t <==> i < hi)
    case ByTime(None, _) => false
    case _ => AsMany(|times|, lo, hi, r.count) && (if r.count > 0 then lo == r.reference - 1 else hi == r.reference)
  }

  /**
   The range, if not empty, is what is meant; it is empty only if nothing
   qualifies; the flags tell whether the ends are in it, and as many items are
   announced as are in it.
   */
  ghost predicate Selects(times: seq<int>, r: Request, o: Outcome) {
    o.Range? && o.lo <= o.hi <= |times|
    && (if o.lo < o.hi then Meant(times, r, o.lo, o.hi) else Nothing(times, r))
    && (o.first <==> o.lo < o.hi && o.lo == 0)
    && (o.last <==> o.lo < o.hi && o.hi == |times|)
    && o.items == o.hi - o.lo
  }

  // ----- The Go adapter -----

  /** The number of records stamped at or before `t`, counted from the front. */
  function AtOrBefore(times: seq<int>, t: int): (r: nat)
    ensures r <= |times| && (forall i :: 0 <= i < r ==> times[i] <= t) && (r < |times| ==> times[r] > t)
  {
    if times == [] || times[0] > t then 0 else 1 + AtOrBefore(times[1..], t)
  }

  /** The record a selection starts from or ends at, -1 for none. */
  function GoIndex(times: seq<int>, r: Request): int {
    match r
    case All => 0
    case ByPosition(reference, _) => reference - 1
    case BySequence(reference, _) => if 1 <= reference <= |times| then reference - 1 else -1
    case ByTime(time, count) =>
      if time.None? then -1
      else
        var after := AtOrBefore(times, time.value);
        if count > 0 then if after >= |times| then -1 else after
        else if after > 0 && times[after - 1] == time.value then after - 2 else after - 1
  }

  function GoOutcome(times: seq<int>, r: Request): Outcome {
    if times == [] then Refused("property", "other")
    else if !r.All? && r.count == 0 then INCONSISTENT
    else if r.ByPosition? && (r.reference < 1 || r.reference > |times|) then Refused("property", "invalid-array-index")
    else if r.ByTime? && r.time.None? then Refused("property", "datatype-not-supported")
    else
      var index, count := GoIndex(times, r), if r.All? then |times| else r.count;
      if index < 0 || index >= |times| then EMPTY
      else if count > 0 then RangeOf(|times|, index, Min(index + count, |times|))
      else RangeOf(|times|, Max(index + count + 1, 0), index + 1)
  }

  /** The scan over the seeded stamps. */
  method GoTimeIndex(times: seq<int>, t: int, count: int32) returns (index: int)
    ensures index == GoIndex(times, ByTime(Some(t), count))
  {
    var n, after := |times|, 0;
    assert times[0..] == times;
    while after < n && times[after] <= t
      invariant 0 <= after <= n
      invariant AtOrBefore(times, t) == after + AtOrBefore(times[after..], t)
    {
      assert times[after..][1..] == times[after + 1..];
      after := after + 1;
    }
    if count > 0 {
      index := after;
    } else {
      index := after - 1;
      if index >= 0 && times[index] == t {
        index := index - 1;
      }
    }
    if index >= n {
      index := -1;
    }
  }

  /** `handleReadRange`, from the count check on. */
  method GoSelect(times: seq<int>, r: Request) returns (o: Outcome)
    ensures o == GoOutcome(times, r)
  {
    hide AtOrBefore, Min, Max;
    var n := |times|;
    if n == 0 {
      return Refused("property", "other");
    }
    if !r.All? && r.count == 0 {
      return INCONSISTENT;
    }
    var index, count := 0, n;
    match r {
      case All =>
      case ByPosition(reference, c) =>
        if reference < 1 || reference > n {
          return Refused("property", "invalid-array-index");
        }
        index, count := reference - 1, c;
      case BySequence(reference, c) =>
        index, count := -1, c;
        if reference >= 1 && reference <= n {
          index := reference - 1;
        }
      case ByTime(time, c) =>
        if time.None? {
          return Refused("property", "datatype-not-supported");
        }
        count := c;
        index := GoTimeIndex(times, time.value, count);
    }
    var start, end := 0, 0;
    if index >= 0 {
      CountedFrom(n, index, count);
      if count > 0 {
        start, end := index, Min(index + count, n);
      } else {
        start, end := Max(index + count + 1, 0), index + 1;
      }
    }
    var some := end - start > 0;
    o := Range(start, end, some && start == 0, some && end == n, end - start);
  }

  /** Counting from a record of the log, forward or back, takes at least that record. */
  lemma CountedFrom(n: nat, index: nat, count: int)
    requires index < n
    ensures count > 0 ==> index < Min(index + count, n) <= n
    ensures count < 0 ==> 0 <= Max(index + count + 1, 0) <= index
  {
  }

  // ----- The C# device -----

  /** A 32-bit sum. */
  function Wrap(n: int): (r: int32)
    ensures -0x8000_0000 <= n <= INT_MAX ==> r == n
    ensures INT_MAX < n <= 2 * INT_MAX + 1 ==> r < 0
  {
    (n + 0x8000_0000) % 0x1_0000_0000 - 0x8000_0000
  }

  /** `FindIndex(r => r.timestamp > time)`, -1 if there is none. */
  function FindAfter(times: seq<int>, t: int): (r: int)
    ensures -1 <= r < |times|
    ensures r == -1 ==> forall i :: 0 <= i < |times| ==> times[i] <= t
    ensures r >= 0 ==> times[r] > t && forall i :: 0 <= i < r ==> times[i] <= t
  {
    if times == [] then -1
    else if times[0] > t then 0
    else var r := FindAfter(times[1..], t); if r == -1 then -1 else r + 1
  }

  /** `FindLastIndex(r => r.timestamp < time)`, -1 if there is none. */
  function FindLastBefore(times: seq<int>, t: int): (r: int)
    ensures -1 <= r < |times|
    ensures forall i :: r < i < |times| ==> times[i] >= t
    ensures r >= 0 ==> times[r] < t
  {
    if times == [] then -1
    else if times[|times| - 1] < t then |times| - 1
    else FindLastBefore(times[..|times| - 1], t)
  }

  /** The inclusive 1-based range; first > last means no items. */
  function CsBounds(times: seq<int>, r: Request): (b: (int, int))
    requires r.ByTime? ==> r.time.Some?
    ensures b.0 >= 1 && b.1 <= |times|
  {
    match r
    case All => (1, |times|)
    case ByTime(time, count) =>
      if count > 0 then
        var first := FindAfter(times, time.value) + 1;
        if first == 0 then (1, 0) else (first, Min(|times|, Wrap(first + count - 1)))
      else
        var last := FindLastBefore(times, time.value) + 1;
        if last == 0 then (1, 0) else (Max(1, last + count + 1), last)
    case _ =>
      if r.reference < 1 || r.reference > |times| then (1, 0)
      else if r.count > 0 then (r.reference, Min(|times|, r.reference + r.count - 1))
      else (Max(1, r.reference + r.count + 1), r.reference)
  }

  /** `Math.Max(0, last - first + 1)`, in 32 bits. */
  function ItemCount(first: int, last: int): nat {
    Max(0, Wrap(Wrap(last - first) + 1))
  }

  function CsOutcome(times: seq<int>, r: Request): Outcome
    requires r.ByTime? ==> r.time.Some?
  {
    if !r.All? && r.count == 0 then INCONSISTENT
    else
      var (first, last) := CsBounds(times, r);
      var items := ItemCount(first, last);
      var (lo, hi) := if first <= last then (first - 1, last) else (0, 0);
      Range(lo, hi, items > 0 && first == 1, items > 0 && last == |times|, items)
  }

  /** `OnReadRange`: the records are copied one by one. */
  method CsSelect(times: seq<int>, r: Request) returns (o: Outcome, records: seq<int>)
    requires r.ByTime? ==> r.time.Some?
    ensures o == CsOutcome(times, r)
    ensures records == if o.Range? then times[o.lo..o.hi] else []
  {
    hide Wrap, CsBounds;
    records := [];
    if !r.All? && r.count == 0 {
      o := INCONSISTENT;
      return;
    }
    var (first, last) := CsBounds(times, r);
    var itemCount := Max(0, Wrap(Wrap(last - first) + 1));
    var i := first;
    while i <= last
      invariant first <= i && (first <= last ==> i <= last + 1)
      invariant records == if first <= last then times[first - 1..i - 1] else []
    {
      records := records + [times[i - 1]];
      i := i + 1;
    }
    var (lo, hi) := if first <= last then (first - 1, last) else (0, 0);
    o := Range(lo, hi, itemCount > 0 && first == 1, itemCount > 0 && last == |times|, itemCount);
  }

  // ----- The two against the meaning, and against each other -----

  lemma {:induction false} AtOrBeforeSplits(times: seq<int>, t: int)
    requires Increasing(times)
    ensures forall i :: 0 <= i < |times| ==> (times[i] > t <==> i >= AtOrBefore(times, t))
    ensures var k := AtOrBefore(times, t); k > 0 ==> times[k - 1] <= t && forall i :: 0 <= i < k - 1 ==> times[i] < t
  {
  }

  /** On a log that is not empty the Go adapter selects what the request means, or names what is wrong with it. */
  lemma GoMeetsMeaning(times: seq<int>, r: Request)
    requires Increasing(times) && times != []
    ensures var o := GoOutcome(times, r);
            if !r.All? && r.count == 0 then o == Refused("services", "inconsistent-parameters")
            else if r.ByPosition? && Nothing(times, r) then o == Refused("property", "invalid-array-index")
            else if r.ByTime? && r.time.None? then o == Refused("property", "datatype-not-supported")
            else Selects(times, r, o)
  {
    hide Increasing, Selects, Meant, AtOrBefore;
    if r.ByTime? && r.time.Some? && r.count != 0 {
      GoTimedMeetsMeaning(times, r.time.value, r.count);
    } else if !r.ByTime? && (r.All? || r.count != 0) && !(r.ByPosition? && Nothing(times, r)) {
      GoPlacedMeetsMeaning(times, r);
    }
  }

  lemma GoPlacedMeetsMeaning(times: seq<int>, r: Request)
    requires times != [] && !r.ByTime? && (r.All? || r.count != 0) && !(r.ByPosition? && Nothing(times, r))
    ensures Selects(times, r, GoOutcome(times, r))
  {
  }

  lemma GoTimedMeetsMeaning(times: seq<int>, t: int, count: int32)
    requires Increasing(times) && times != [] && count != 0
    ensures Selects(times, ByTime(Some(t), count), GoOutcome(times, ByTime(Some(t), count)))
  {
    hide AtOrBefore, GoOutcome, GoIndex, Selects, Increasing, RangeOf, Min, Max;
    if count > 0 {
      AtOrBeforeSplits(times, t);
      GoLater(times, t, count);
      LaterIsMeant(times, t, count, AtOrBefore(times, t));
    } else {
      GoEarlier(times, t, count);
      EarlierIndex(times, t, count);
      EarlierIsMeant(times, t, count, GoIndex(times, ByTime(Some(t), count)));
    }
  }

  lemma EarlierIndex(times: seq<int>, t: int, count: int32)
    requires Increasing(times) && count < 0
    ensures var index := GoIndex(times, ByTime(Some(t), count));
            -1 <= index < |times| && forall i :: 0 <= i < |times| ==> (times[i] < t <==> i <= index)
  {
    AtOrBeforeSplits(times, t);
    hide AtOrBefore;
  }

  lemma LaterIsMeant(times: seq<int>, t: int, count: int32, k: nat)
    requires count > 0 && k <= |times| && forall i :: 0 <= i < |times| ==> (times[i] > t <==> i >= k)
    ensures Selects(times, ByTime(Some(t), count),
                    if k == |times| then EMPTY else RangeOf(|times|, k, Min(k + count, |times|)))
  {
  }

  lemma EarlierIsMeant(times: seq<int>, t: int, count: int32, index: int)
    requires count < 0 && -1 <= index < |times| && forall i :: 0 <= i < |times| ==> (times[i] < t <==> i <= index)
    ensures Selects(times, ByTime(Some(t), count),
                    if index < 0 then EMPTY else RangeOf(|times|, Max(index + count + 1, 0), index + 1))
  {
  }

  lemma GoEarlier(times: seq<int>, t: int, count: int32)
    requires times != [] && count < 0
    ensures var index := GoIndex(times, ByTime(Some(t), count));
            index < |times|
            && GoOutcome(times, ByTime(Some(t), count)) ==
               if index < 0 then EMPTY else RangeOf(|times|, Max(index + count + 1, 0), index + 1)
  {
    hide AtOrBefore;
  }

  lemma {:induction false} GoLater(times: seq<int>, t: int, count: int32)
    requires times != [] && count > 0
    ensures var k := AtOrBefore(times, t);
            GoOutcome(times, ByTime(Some(t), count)) ==
            if k == |times| then EMPTY else RangeOf(|times|, k, Min(k + count, |times|))
  {
    hide AtOrBefore;
  }

  /** An empty log: Go refuses every request, and C# answers with nothing. */
  lemma EmptyLog(r: Request)
    requires r.ByTime? ==> r.time.Some?
    ensures GoOutcome([], r) == Refused("property", "other")
    ensures r.All? || r.count != 0 ==> CsOutcome([], r) == Range(0, 0, false, false, 0)
  {
    hide Wrap, ItemCount, FindAfter, FindLastBefore;
    if r.All? || r.count != 0 {
      assert CsBounds([], r) == (1, 0);
      ItemCountOf(1, 0);
    }
  }

  /** A count of nothing is refused. */
  lemma CountlessRequest(times: seq<int>, r: Request)
    requires !r.All? && r.count == 0 && (r.ByTime? ==> r.time.Some?)
    ensures CsOutcome(times, r) == Refused("services", "inconsistent-parameters")
  {
    hide CsBounds, ItemCount;
  }

  /** The C# sum overflows: there are records after the time, and counting on from the first of them leaves 32 bits. */
  predicate Overflows(times: seq<int>, r: Request) {
    r.ByTime? && r.time.Some? && r.count > 0
    && var k := AtOrBefore(times, r.time.value); k < |times| && k + r.count > INT_MAX
  }

  /** Nothing is selected, and `count` items are announced. */
  function OverflowReply(count: nat): Outcome {
    Range(0, 0, false, false, count)
  }

  lemma ItemCountOf(first: int, last: int)
    requires 1 <= first <= last + 1 <= INT_MAX + 1
    ensures ItemCount(first, last) == last - first + 1
  {
    hide Wrap;
  }

  /** The wrapped last record wraps back when its distance is taken. */
  lemma OverflowedItemCount(first: int, count: int32)
    requires 1 <= first <= INT_MAX && count > 0 && first + count - 1 > INT_MAX
    ensures Wrap(first + count - 1) < 0 && ItemCount(first, Wrap(first + count - 1)) == count
  {
    var last := first + count - 1 - 0x1_0000_0000;
    assert Wrap(first + count - 1) == last;
    assert Wrap(last - first) == count - 1;
  }

  lemma {:induction false} FindsAgree(times: seq<int>, t: int)
    requires Increasing(times)
    ensures FindAfter(times, t) == if AtOrBefore(times, t) < |times| then AtOrBefore(times, t) else -1
    ensures var k := AtOrBefore(times, t);
            FindLastBefore(times, t) == if k > 0 && times[k - 1] == t then k - 2 else k - 1
  {
    AtOrBeforeSplits(times, t);
    var k: int := AtOrBefore(times, t);
    LastBeforeIs(times, t, if k > 0 && times[k - 1] == t then k - 2 else k - 1);
    hide AtOrBefore, FindAfter, FindLastBefore;
  }

  lemma {:induction false} LastBeforeIs(times: seq<int>, t: int, last: int)
    requires -1 <= last < |times| && forall i :: 0 <= i < |times| ==> (times[i] < t <==> i <= last)
    ensures FindLastBefore(times, t) == last
  {
    var found := FindLastBefore(times, t);
    hide FindLastBefore;
    assert found >= 0 ==> times[found] < t;
    assert last >= 0 ==> times[last] < t;
  }

  /**
   Without overflow the C# reply is the Go one; with it nothing is selected, and `count` items are announced all the
   same.
   */
  lemma TimedOutcomes(times: seq<int>, t: int, count: int32)
    requires Increasing(times) && times != [] && |times| <= INT_MAX && count != 0
    ensures var r := ByTime(Some(t), count);
            CsOutcome(times, r) == if Overflows(times, r) then OverflowReply(count) else GoOutcome(times, r)
  {
    if count > 0 {
      LaterOutcomes(times, t, count);
    } else {
      EarlierOutcomes(times, t, count);
    }
    hide CsOutcome, GoOutcome;
  }

  lemma LaterOutcomes(times: seq<int>, t: int, count: int32)
    requires Increasing(times) && times != [] && |times| <= INT_MAX && count > 0
    ensures var r := ByTime(Some(t), count);
            CsOutcome(times, r) == if Overflows(times, r) then OverflowReply(count) else GoOutcome(times, r)
  {
    hide AtOrBefore, CsOutcome, GoOutcome, Increasing;
    var r, k: int := ByTime(Some(t), count), AtOrBefore(times, t);
    LaterBounds(times, t, count);
    GoLater(times, t, count);
    hide CsBounds;
    if k < |times| && k + count > INT_MAX {
      OverflowedOutcome(times, r, k + 1, count);
    } else {
      BoundsOutcome(times, r);
    }
  }

  lemma OverflowedOutcome(times: seq<int>, r: Request, first: int, count: int32)
    requires r.ByTime? && r.time.Some? && r.count == count > 0 && 1 <= first <= INT_MAX && first + count - 1 > INT_MAX
    requires CsBounds(times, r) == (first, Wrap(first + count - 1))
    ensures CsOutcome(times, r) == OverflowReply(count)
  {
    OverflowedItemCount(first, count);
    hide CsBounds, Wrap, ItemCount;
  }

  lemma {:induction false} LaterBounds(times: seq<int>, t: int, count: int32)
    requires Increasing(times) && |times| <= INT_MAX && count > 0
    ensures var k: int := AtOrBefore(times, t);
            CsBounds(times, ByTime(Some(t), count)) ==
            if k == |times| then (1, 0)
            else if k + count > INT_MAX then (k + 1, Wrap(k + count))
            else (k + 1, Min(|times|, k + count))
  {
    FindsAgree(times, t);
    hide AtOrBefore, FindAfter, Wrap;
  }

  /** Bounds that did not overflow: the range between them. */
  lemma BoundsOutcome(times: seq<int>, r: Request)
    requires (r.ByTime? ==> r.time.Some?) && (r.All? || r.count != 0) && |times| <= INT_MAX
    requires var (first, last) := CsBounds(times, r); first <= last + 1
    ensures var (first, last) := CsBounds(times, r); CsOutcome(times, r) == RangeOf(|times|, first - 1, last)
  {
    var (first, last) := CsBounds(times, r);
    hide CsBounds, ItemCount;
    ItemCountOf(first, last);
  }

  lemma EarlierOutcomes(times: seq<int>, t: int, count: int32)
    requires Increasing(times) && times != [] && |times| <= INT_MAX && count < 0
    ensures CsOutcome(times, ByTime(Some(t), count)) == GoOutcome(times, ByTime(Some(t), count))
  {
    FindsAgree(times, t);
    var r, index := ByTime(Some(t), count), FindLastBefore(times, t);
    hide AtOrBefore, FindLastBefore, CsOutcome;
    assert GoIndex(times, r) == index;
    assert CsBounds(times, r) == if index < 0 then (1, 0) else (Max(1, index + count + 2), index + 1);
    BoundsOutcome(times, r);
    assert index >= 0 ==> Max(1, index + count + 2) - 1 == Max(index + count + 1, 0);
    hide CsBounds;
  }

  lemma PositionedOutcomes(times: seq<int>, r: Request)
    requires times != [] && |times| <= INT_MAX && !r.ByTime?
    requires r.All? || r.count != 0
    ensures CsOutcome(times, r) ==
            if r.ByPosition? && Nothing(times, r) then EMPTY else GoOutcome(times, r)
  {
    hide CsOutcome;
    BoundsOutcome(times, r);
  }

  /** The two agree exactly when the position is in range and the C# sum does not overflow. */
  lemma GoAndCsAgreeExactly(times: seq<int>, r: Request)
    requires Increasing(times) && times != [] && |times| <= INT_MAX && (r.ByTime? ==> r.time.Some?)
    ensures GoOutcome(times, r) == CsOutcome(times, r) <==>
            (!r.All? && r.count == 0) || !((r.ByPosition? && Nothing(times, r)) || Overflows(times, r))
  {
    if r.All? || r.count != 0 {
      if r.ByTime? {
        TimedOutcomes(times, r.time.value, r.count);
      } else {
        PositionedOutcomes(times, r);
      }
      GoRefusesPositions(times, r);
      hide CsOutcome, GoOutcome;
    }
  }

  lemma GoRefusesPositions(times: seq<int>, r: Request)
    requires times != [] && (r.All? || r.count != 0)
    ensures r.ByPosition? && Nothing(times, r) ==> GoOutcome(times, r).Refused?
  {
  }

  /** The C# device selects what the request means exactly when its sum stays within 32 bits. */
  lemma CsMeetsMeaningExactly(times: seq<int>, r: Request)
    requires Increasing(times) && times != [] && |times| <= INT_MAX && (r.ByTime? ==> r.time.Some?)
    requires r.All? || r.count != 0
    ensures Selects(times, r, CsOutcome(times, r)) <==> !Overflows(times, r)
  {
    hide CsOutcome, GoOutcome, Meant, Nothing, Overflows, Increasing;
    AnnouncedIsSentExactly(times, r);
    if !Overflows(times, r) {
      GoMeetsMeaning(times, r);
      if r.ByTime? {
        TimedOutcomes(times, r.time.value, r.count);
      } else {
        PositionedOutcomes(times, r);
      }
    }
  }

  /** The items announced are those sent if and only if the sum does not overflow. */
  lemma AnnouncedIsSentExactly(times: seq<int>, r: Request)
    requires Increasing(times) && times != [] && |times| <= INT_MAX && (r.ByTime? ==> r.time.Some?)
    requires r.All? || r.count != 0
    ensures var o := CsOutcome(times, r); o.Range? && (o.items == o.hi - o.lo <==> !Overflows(times, r))
  {
    hide Increasing;
    GoMeetsMeaning(times, r);
    if r.ByTime? {
      TimedOutcomes(times, r.time.value, r.count);
    } else {
      PositionedOutcomes(times, r);
    }
    hide CsOutcome, GoOutcome, Meant, Nothing, Overflows;
  }

  /** When the sum overflows there are records to send, none is sent, and as many as were asked for are announced. */
  lemma OverflowLosesRecords(times: seq<int>, r: Request)
    requires Increasing(times) && times != [] && |times| <= INT_MAX && Overflows(times, r)
    ensures !Nothing(times, r) && CsOutcome(times, r) == OverflowReply(r.count)
  {
    TimedOutcomes(times, r.time.value, r.count);
    hide CsOutcome, GoOutcome;
    assert times[AtOrBefore(times, r.time.value)] > r.time.value;
  }

  /** The log every Trend Log of the C# device holds, in seconds from its first record. */
  const CS_SEED: seq<int> := [0, 60, 120, 180]

  /** The overflow happens: on that log, to a client that asks for as many records as it can after the first. */
  lemma OverflowExample()
    ensures var r := ByTime(Some(0), INT_MAX);
            GoOutcome(CS_SEED, r) == Range(1, 4, false, true, 3)
            && CsOutcome(CS_SEED, r) == Range(0, 0, false, false, INT_MAX)
  {
    assert CS_SEED[1..] == [60, 120, 180] && AtOrBefore([60, 120, 180], 0) == 0;
    GoLater(CS_SEED, 0, INT_MAX);
    TimedOutcomes(CS_SEED, 0, INT_MAX);
    hide AtOrBefore, CsOutcome, GoOutcome;
  }

  // ----- Paging -----

  /** Reading on from a position, page by page, until a page carries the last-item flag. */
  function Pages(times: seq<int>, size: int32, position: nat): seq<int>
    requires times != [] && |times| <= INT_MAX && size > 0 && 1 <= position <= |times|
    decreases |times| - position
  {
    var o := CsOutcome(times, ByPosition(position, size));
    PageIs(times, size, position);
    times[o.lo..o.hi] + if o.last then [] else Pages(times, size, position + (o.hi - o.lo))
  }

  /** Paging terminates and rebuilds the log from the position on, whatever the page size, with either adapter. */
  lemma {:induction false} PagingRebuildsTheLog(times: seq<int>, size: int32, position: nat)
    requires times != [] && |times| <= INT_MAX && size > 0 && 1 <= position <= |times|
    ensures Pages(times, size, position) == times[position - 1..]
    ensures GoOutcome(times, ByPosition(position, size)) == CsOutcome(times, ByPosition(position, size))
    decreases |times| - position
  {
    hide CsOutcome, GoOutcome;
    var o := CsOutcome(times, ByPosition(position, size));
    PageIs(times, size, position);
    assert times[o.lo..] == times[o.lo..o.hi] + times[o.hi..];
    if o.last {
      assert times[o.hi..] == [];
    } else {
      PagingRebuildsTheLog(times, size, o.hi + 1);
      assert position + (o.hi - o.lo) == o.hi + 1;
    }
  }

  lemma PageIs(times: seq<int>, size: int32, position: nat)
    requires times != [] && |times| <= INT_MAX && size > 0 && 1 <= position <= |times|
    ensures var o := CsOutcome(times, ByPosition(position, size));
            o.Range? && o.lo == position - 1 < o.hi <= |times| && (o.last <==> o.hi == |times|)
            && GoOutcome(times, ByPosition(position, size)) == o
  {
  }

  // ----- The seeded log -----

  const LOG_SEED_INTERVAL: int := 900

  /** Stamps progress by the interval from the start, in seconds. */
  method SeedTimes(start: int) returns (times: seq<int>)
    ensures |times| == LOG_SEED_RECORDS && Increasing(times)
    ensures forall i :: 0 <= i < |times| ==> times[i] == start + i * LOG_SEED_INTERVAL
  {
    times := [];
    for i := 0 to LOG_SEED_RECORDS
      invariant |times| == i && forall j :: 0 <= j < i ==> times[j] == start + j * LOG_SEED_INTERVAL
    {
      times := times + [start + i * LOG_SEED_INTERVAL];
    }
  }
}
