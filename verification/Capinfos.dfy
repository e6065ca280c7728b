/** The record loop of capinfos: the times of a file's packets, and how many each interface has. */
module Capinfos {
  import opened Framing

  // Times

  datatype NsTime = NsTime(secs: int, nsecs: int)

  const ZERO := NsTime(0, 0)
  const INT_MAX: int := 0x7FFF_FFFF

  predicate IsUnset(t: NsTime) {
    t == NsTime(0, INT_MAX)
  }

  /** Conversion to a 32-bit int. */
  function ToInt(n: int): (r: int)
    ensures -0x8000_0000 <= r < 0x8000_0000
  {
    var m := n % 0x1_0000_0000;
    if m >= 0x8000_0000 then m - 0x1_0000_0000 else m
  }

  /** Negative, zero or positive, as a is before, at or after b. The difference of the seconds is
      converted to an int. */
  function Cmp(a: NsTime, b: NsTime): int {
    if IsUnset(a) then if IsUnset(b) then 0 else -1
    else if IsUnset(b) then 1
    else if a.secs == b.secs then a.nsecs - b.nsecs
    else ToInt(a.secs - b.secs)
  }

  predicate Normal(t: NsTime) {
    0 <= t.nsecs < 1_000_000_000
  }

  predicate Before(a: NsTime, b: NsTime) {
    a.secs < b.secs || (a.secs == b.secs && a.nsecs < b.nsecs)
  }

  /** The comparison calls a before b, as the difference modulo 2^32 has it. */
  predicate Negative(a: NsTime, b: NsTime) {
    if a.secs == b.secs then a.nsecs < b.nsecs else (a.secs - b.secs) % 0x1_0000_0000 >= 0x8000_0000
  }

  /** The seconds are equal, or their difference modulo 2^32 is on the right side of 2^31. */
  predicate ComparesRightly(a: NsTime, b: NsTime) {
    || a.secs == b.secs
    || (a.secs < b.secs && (a.secs - b.secs) % 0x1_0000_0000 >= 0x8000_0000)
    || (a.secs > b.secs && 0 < (a.secs - b.secs) % 0x1_0000_0000 < 0x8000_0000)
  }

  /** The sign of the comparison is right both ways if and only if the times compare rightly. */
  lemma CompareRightIff(a: NsTime, b: NsTime)
    requires Normal(a) && Normal(b)
    ensures Cmp(a, b) < 0 <==> Negative(a, b)
    ensures ((Cmp(a, b) < 0 <==> Before(a, b)) && (Cmp(a, b) > 0 <==> Before(b, a))) <==> ComparesRightly(a, b)
  {
  }

  // Records

  /** One record: its time stamp, whether it is a packet, its interface id, and how many interface
      descriptions have been read when it is. */
  datatype Rec = Rec(ts: Option<NsTime>, isPacket: bool, interfaceId: Option<nat>, known: nat)

  datatype Order = InOrder | NotInOrder | OrderUnknown

  datatype Times = Times(packet: nat, haveTimes: bool, earliest: NsTime, latest: NsTime, cur: NsTime, order: Order)

  const NO_TIMES := Times(0, true, ZERO, ZERO, ZERO, InOrder)

  /** The times after one more record. */
  function Timed(t: Times, r: Rec): Times {
    var packet := if r.isPacket then t.packet + 1 else t.packet;
    match r.ts
    case None => t.(packet := packet, haveTimes := false, order := if t.order != NotInOrder then OrderUnknown else t.order)
    case Some(ts) =>
      var first := t.packet == 0;
      var earliest, latest := if first then ts else t.earliest, if first then ts else t.latest;
      Times(packet, t.haveTimes,
            if Cmp(ts, earliest) < 0 then ts else earliest,
            if Cmp(ts, latest) > 0 then ts else latest,
            ts,
            if Cmp(ts, if first then ts else t.cur) < 0 then NotInOrder else t.order)
  }

  function TimesOf(recs: seq<Rec>): Times {
    if recs == [] then NO_TIMES else Timed(TimesOf(recs[..|recs| - 1]), recs[|recs| - 1])
  }

  // Interfaces

  datatype Counts = Counts(counts: seq<nat>, unknown: nat)

  function Grow(counts: seq<nat>, n: nat): (r: seq<nat>)
    ensures |r| == n
    ensures forall j | 0 <= j < n :: r[j] == if j < |counts| then counts[j] else 0
  {
    if n <= |counts| then counts[..n] else counts + seq(n - |counts|, _ => 0)
  }

  function Increment(c: Counts, id: nat): Counts {
    if id < |c.counts| then c.(counts := c.counts[id := c.counts[id] + 1]) else c.(unknown := c.unknown + 1)
  }

  /** The counts after one more record. */
  function Counted(c: Counts, r: Rec): Counts {
    if !r.isPacket then c
    else
      match r.interfaceId
      case None => Increment(c, 0)
      case Some(id) => Increment(if id >= |c.counts| then c.(counts := Grow(c.counts, r.known)) else c, id)
  }

  function CountsOf(n: nat, recs: seq<Rec>): Counts {
    if recs == [] then Counts(seq(n, _ => 0), 0) else Counted(CountsOf(n, recs[..|recs| - 1]), recs[|recs| - 1])
  }

  /** One record's time. */
  method TakeTime(t: Times, rec: Rec) returns (u: Times)
    ensures u == Timed(t, rec).(packet := t.packet)
  {
    var earliest, latest, prev, order := t.earliest, t.latest, t.cur, t.order;
    match rec.ts
    case Some(cur) =>
      if t.packet == 0 {
        earliest, latest, prev := cur, cur, cur;
      }
      if Cmp(cur, prev) < 0 {
        order := NotInOrder;
      }
      if Cmp(cur, earliest) < 0 {
        earliest := cur;
      }
      if Cmp(cur, latest) > 0 {
        latest := cur;
      }
      u := Times(t.packet, t.haveTimes, earliest, latest, cur, order);
    case None =>
      if order != NotInOrder {
        order := OrderUnknown;
      }
      u := t.(haveTimes := false, order := order);
  }

  /** One packet's interface. */
  method CountInterface(c: Counts, rec: Rec) returns (d: Counts)
    requires rec.isPacket
    ensures d == Counted(c, rec)
  {
    var packetCounts, unknown := c.counts, c.unknown;
    match rec.interfaceId
    case Some(id) =>
      if id >= |packetCounts| {
        packetCounts := Grow(packetCounts, rec.known);
      }
      if id < |packetCounts| {
        packetCounts := packetCounts[id := packetCounts[id] + 1];
      } else {
        unknown := unknown + 1;
      }
      d := Counts(packetCounts, unknown);
    case None =>
      if |packetCounts| != 0 {
        packetCounts := packetCounts[0 := packetCounts[0] + 1];
      } else {
        unknown := unknown + 1;
      }
      d := Counts(packetCounts, unknown);
  }

  /** The loop. At its beginning, n interface descriptions have been read. */
  method ProcessCapFile(n: nat, recs: seq<Rec>) returns (times: Times, counts: Counts)
    ensures times == TimesOf(recs) && counts == CountsOf(n, recs)
  {
    times, counts := NO_TIMES, Counts(seq(n, _ => 0), 0);
    var i := 0;
    while i < |recs|
      invariant i <= |recs| && times == TimesOf(recs[..i]) && counts == CountsOf(n, recs[..i])
    {
      assert recs[..i + 1][..i] == recs[..i];
      times := TakeTime(times, recs[i]);
      if recs[i].isPacket {
        times := times.(packet := times.packet + 1);
        counts := CountInterface(counts, recs[i]);
      }
      i := i + 1;
    }
    assert recs[..i] == recs;
  }

  // Files whose records are all packets with time stamps

  predicate AllStamped(recs: seq<Rec>) {
    forall i | 0 <= i < |recs| :: recs[i].isPacket && recs[i].ts.Some? && Normal(recs[i].ts.value)
  }

  /** Each packet compares rightly with each one that precedes it. */
  predicate AllCompareRightly(recs: seq<Rec>)
    requires AllStamped(recs)
  {
    forall i, j | 0 <= i < j < |recs| :: ComparesRightly(recs[j].ts.value, recs[i].ts.value)
  }

  predicate Sorted(recs: seq<Rec>)
    requires AllStamped(recs)
  {
    forall i, j | 0 <= i < j < |recs| :: !Before(recs[j].ts.value, recs[i].ts.value)
  }

  predicate Earliest(recs: seq<Rec>, t: NsTime)
    requires AllStamped(recs)
  {
    (exists i | 0 <= i < |recs| :: recs[i].ts.value == t)
    && (forall i | 0 <= i < |recs| :: !Before(recs[i].ts.value, t))
  }

  predicate Latest(recs: seq<Rec>, t: NsTime)
    requires AllStamped(recs)
  {
    (exists i | 0 <= i < |recs| :: recs[i].ts.value == t)
    && (forall i | 0 <= i < |recs| :: !Before(t, recs[i].ts.value))
  }

  /** If packets compare rightly with those that precede them, the earliest and latest times are the
      least and greatest of all. */
  lemma {:induction false} EarliestAndLatestRight(recs: seq<Rec>)
    requires recs != [] && AllStamped(recs) && AllCompareRightly(recs)
    ensures Earliest(recs, TimesOf(recs).earliest) && Latest(recs, TimesOf(recs).latest)
    ensures TimesOf(recs).packet == |recs|
  {
    var n := |recs| - 1;
    if n == 0 {
      assert TimesOf(recs[..0]) == NO_TIMES;
      CompareRightIff(recs[0].ts.value, recs[0].ts.value);
    } else {
      PartStamped(recs);
      EarliestAndLatestRight(recs[..n]);
      MinMaxRight(recs, TimesOf(recs[..n]).earliest, TimesOf(recs[..n]).latest);
    }
  }

  lemma PartStamped(recs: seq<Rec>)
    requires recs != [] && AllStamped(recs) && AllCompareRightly(recs)
    ensures AllStamped(recs[..|recs| - 1]) && AllCompareRightly(recs[..|recs| - 1])
  {
    assert forall k | 0 <= k < |recs| - 1 :: recs[..|recs| - 1][k] == recs[k];
  }

  lemma MinMaxRight(recs: seq<Rec>, earliest: NsTime, latest: NsTime)
    requires |recs| > 1 && AllStamped(recs) && AllCompareRightly(recs)
    requires AllStamped(recs[..|recs| - 1]) && Earliest(recs[..|recs| - 1], earliest) && Latest(recs[..|recs| - 1], latest)
    ensures var ts := recs[|recs| - 1].ts.value;
            && Earliest(recs, if Cmp(ts, earliest) < 0 then ts else earliest)
            && Latest(recs, if Cmp(ts, latest) > 0 then ts else latest)
  {
    var n := |recs| - 1;
    var i :| 0 <= i < n && recs[..n][i].ts.value == earliest;
    var j :| 0 <= j < n && recs[..n][j].ts.value == latest;
    CompareRightIff(recs[n].ts.value, recs[i].ts.value);
    CompareRightIff(recs[n].ts.value, recs[j].ts.value);
    assert forall k | 0 <= k < n :: recs[..n][k] == recs[k];
  }

  // The verdict on the order, for any packets

  function Stamps(recs: seq<Rec>): seq<NsTime> {
    if recs == [] then []
    else if recs[|recs| - 1].ts.Some? then Stamps(recs[..|recs| - 1]) + [recs[|recs| - 1].ts.value]
    else Stamps(recs[..|recs| - 1])
  }

  /** The times the loop compares, each with the one before it: those of the stamped packets, after
      time zero if the first packet has no stamp. */
  function Compared(recs: seq<Rec>): seq<NsTime> {
    if recs != [] && recs[0].ts.None? then [ZERO] + Stamps(recs) else Stamps(recs)
  }

  /** Some time is called before the one that precedes it. */
  predicate SomeNegative(times: seq<NsTime>) {
    exists k | 0 <= k < |times| - 1 :: NegativeAfter(times, k)
  }

  predicate NegativeAfter(times: seq<NsTime>, k: nat)
    requires k + 1 < |times|
  {
    Negative(times[k + 1], times[k])
  }

  /** Some time is before the one that precedes it. */
  predicate Descends(times: seq<NsTime>) {
    exists k | 0 <= k < |times| - 1 :: DescendsAfter(times, k)
  }

  predicate DescendsAfter(times: seq<NsTime>, k: nat)
    requires k + 1 < |times|
  {
    Before(times[k + 1], times[k])
  }

  predicate NormalPackets(recs: seq<Rec>) {
    forall i | 0 <= i < |recs| :: recs[i].isPacket && (recs[i].ts.Some? ==> Normal(recs[i].ts.value))
  }

  predicate AnyUnstamped(recs: seq<Rec>) {
    exists i | 0 <= i < |recs| :: recs[i].ts.None?
  }

  /** The verdict as it is documented. */
  function Documented(recs: seq<Rec>): Order {
    if Descends(Stamps(recs)) then NotInOrder else if AnyUnstamped(recs) then OrderUnknown else InOrder
  }

  lemma NegativeOneMore(times: seq<NsTime>, t: NsTime)
    ensures SomeNegative(times + [t]) <==> SomeNegative(times) || (times != [] && Negative(t, times[|times| - 1]))
  {
    var more := times + [t];
    assert forall k | 0 <= k < |times| - 1 :: NegativeAfter(more, k) == NegativeAfter(times, k);
    assert times != [] ==> NegativeAfter(more, |times| - 1) == Negative(t, times[|times| - 1]);
    if SomeNegative(times) {
      var k :| 0 <= k < |times| - 1 && NegativeAfter(times, k);
      assert NegativeAfter(more, k);
    }
  }

  lemma UnstampedOneMore(recs: seq<Rec>)
    requires recs != []
    ensures AnyUnstamped(recs) <==> AnyUnstamped(recs[..|recs| - 1]) || recs[|recs| - 1].ts.None?
  {
    var n := |recs| - 1;
    if AnyUnstamped(recs[..n]) {
      var i :| 0 <= i < n && recs[..n][i].ts.None?;
      assert recs[i].ts.None?;
    }
    if AnyUnstamped(recs) {
      var i :| 0 <= i < |recs| && recs[i].ts.None?;
      assert i < n ==> recs[..n][i].ts.None?;
    }
  }

  lemma ComparedOneMore(recs: seq<Rec>)
    requires recs != []
    ensures var n := |recs| - 1;
            Compared(recs) == match recs[n].ts
                              case Some(ts) => Compared(recs[..n]) + [ts]
                              case None => if n == 0 then [ZERO] else Compared(recs[..n])
  {
    var n := |recs| - 1;
    if n > 0 {
      assert recs[..n][0] == recs[0];
      if recs[n].ts.Some? && recs[0].ts.None? {
        Associate([ZERO], Stamps(recs[..n]), [recs[n].ts.value]);
      }
    } else {
      assert recs[..0] == [] && Stamps(recs[..0]) == [];
      assert recs[0].ts.None? ==> [ZERO] + Stamps(recs) == [ZERO];
    }
  }

  /** The loop's verdict on any packets, whatever their times: "not in order" exactly if one of the
      comparisons it makes is negative. */
  lemma {:induction false} VerdictOf(recs: seq<Rec>)
    requires NormalPackets(recs)
    ensures TimesOf(recs).order
         == if SomeNegative(Compared(recs)) then NotInOrder else if AnyUnstamped(recs) then OrderUnknown else InOrder
    ensures TimesOf(recs).packet == |recs| && TimesOf(recs).haveTimes == !AnyUnstamped(recs)
    ensures Normal(TimesOf(recs).cur)
    ensures TimesOf(recs).cur == if Compared(recs) == [] then ZERO else Compared(recs)[|Compared(recs)| - 1]
    ensures recs != [] ==> Compared(recs) != []
  {
    if recs == [] {
    } else {
      var n := |recs| - 1;
      assert NormalPackets(recs[..n]);
      VerdictOf(recs[..n]);
      UnstampedOneMore(recs);
      ComparedOneMore(recs);
      if recs[n].ts.Some? {
        var ts := recs[n].ts.value;
        NegativeOneMore(Compared(recs[..n]), ts);
        CompareRightIff(ts, TimesOf(recs[..n]).cur);
        CompareRightIff(ts, ts);
      }
    }
  }

  /** For any packets: the verdict is the documented one if and only if, in case some stamped packet is
      before the previous one, some comparison is negative, and in case none is, none is. */
  lemma VerdictRightIff(recs: seq<Rec>)
    requires NormalPackets(recs)
    ensures TimesOf(recs).order == Documented(recs) <==> SomeNegative(Compared(recs)) == Descends(Stamps(recs))
  {
    VerdictOf(recs);
  }

  /** The verdict is the documented one if each stamp compares rightly with the one before it; and, if
      the first packet has no stamp, the first stamp rightly and not as negative with time zero. */
  lemma OrderRight(recs: seq<Rec>)
    requires NormalPackets(recs)
    requires forall k | 0 <= k < |Stamps(recs)| - 1 :: ComparesRightly(Stamps(recs)[k + 1], Stamps(recs)[k])
    requires recs != [] && recs[0].ts.None? && Stamps(recs) != [] ==>
               0 <= Stamps(recs)[0].secs && ComparesRightly(Stamps(recs)[0], ZERO)
    ensures TimesOf(recs).order == Documented(recs)
  {
    var stamps, compared := Stamps(recs), Compared(recs);
    StampsNormal(recs);
    forall k | 0 <= k < |stamps| - 1
      ensures NegativeAfter(stamps, k) <==> DescendsAfter(stamps, k)
    {
      CompareRightIff(stamps[k + 1], stamps[k]);
    }
    if stamps != [] {
      CompareRightIff(stamps[0], ZERO);
    }
    if compared != stamps {
      NegativeBehindZero(stamps);
    }
    VerdictRightIff(recs);
  }

  lemma {:induction false} StampsNormal(recs: seq<Rec>)
    requires NormalPackets(recs)
    ensures forall k | 0 <= k < |Stamps(recs)| :: Normal(Stamps(recs)[k])
  {
    if recs == [] {
    } else {
      assert NormalPackets(recs[..|recs| - 1]);
      StampsNormal(recs[..|recs| - 1]);
    }
  }

  lemma NegativeBehindZero(stamps: seq<NsTime>)
    ensures SomeNegative([ZERO] + stamps) <==> SomeNegative(stamps) || (stamps != [] && Negative(stamps[0], ZERO))
  {
    var more := [ZERO] + stamps;
    if SomeNegative(stamps) {
      var k :| 0 <= k < |stamps| - 1 && NegativeAfter(stamps, k);
      assert NegativeAfter(more, k + 1);
    }
    if stamps != [] && Negative(stamps[0], ZERO) {
      assert NegativeAfter(more, 0);
    }
    if SomeNegative(more) {
      var k :| 0 <= k < |more| - 1 && NegativeAfter(more, k);
      assert k > 0 ==> NegativeAfter(stamps, k - 1);
    }
  }

  // Files whose packets all have time stamps

  lemma {:induction false} StampsOfAll(recs: seq<Rec>)
    requires AllStamped(recs)
    ensures |Stamps(recs)| == |recs| && forall k | 0 <= k < |recs| :: Stamps(recs)[k] == recs[k].ts.value
    ensures Compared(recs) == Stamps(recs) && NormalPackets(recs) && !AnyUnstamped(recs)
  {
    if recs == [] {
    } else {
      var n := |recs| - 1;
      assert forall k | 0 <= k < n :: recs[..n][k] == recs[k];
      StampsOfAll(recs[..n]);
    }
  }

  /** No time before the previous one, no time before any earlier one. */
  lemma {:induction false} NotDescending(times: seq<NsTime>, i: nat, j: nat)
    requires i < j < |times| && !Descends(times)
    ensures !Before(times[j], times[i])
  {
    assert !DescendsAfter(times, j - 1);
    if i == j - 1 {
    } else {
      NotDescending(times, i, j - 1);
    }
  }

  lemma SortedIffNotDescending(recs: seq<Rec>)
    requires AllStamped(recs)
    ensures Sorted(recs) <==> !Descends(Stamps(recs))
  {
    StampsOfAll(recs);
    if !Descends(Stamps(recs)) {
      forall i, j | 0 <= i < j < |recs|
        ensures !Before(recs[j].ts.value, recs[i].ts.value)
      {
        NotDescending(Stamps(recs), i, j);
      }
    } else {
      var k :| 0 <= k < |recs| - 1 && DescendsAfter(Stamps(recs), k);
      assert Before(recs[k + 1].ts.value, recs[k].ts.value);
    }
  }

  lemma NegativesOfAll(recs: seq<Rec>)
    requires AllStamped(recs)
    ensures SomeNegative(Stamps(recs)) <==> exists k | 0 <= k < |recs| - 1 :: Negative(recs[k + 1].ts.value, recs[k].ts.value)
  {
    StampsOfAll(recs);
    if SomeNegative(Stamps(recs)) {
      var k :| 0 <= k < |recs| - 1 && NegativeAfter(Stamps(recs), k);
      assert Negative(recs[k + 1].ts.value, recs[k].ts.value);
    }
    if exists k | 0 <= k < |recs| - 1 :: Negative(recs[k + 1].ts.value, recs[k].ts.value) {
      var k :| 0 <= k < |recs| - 1 && Negative(recs[k + 1].ts.value, recs[k].ts.value);
      assert NegativeAfter(Stamps(recs), k);
    }
  }

  /** For a stamped file of any length: a sorted one is called "in order" if and only if no packet is
      called before the previous one, and one that is not sorted is called "not in order" if and only
      if some packet is. */
  lemma SortedFileRightIff(recs: seq<Rec>)
    requires AllStamped(recs)
    ensures TimesOf(recs).order == (if Sorted(recs) then InOrder else NotInOrder)
            <==> if Sorted(recs) then forall k | 0 <= k < |recs| - 1 :: !Negative(recs[k + 1].ts.value, recs[k].ts.value)
                 else exists k | 0 <= k < |recs| - 1 :: Negative(recs[k + 1].ts.value, recs[k].ts.value)
  {
    StampsOfAll(recs);
    SortedIffNotDescending(recs);
    VerdictOf(recs);
    NegativesOfAll(recs);
  }

  lemma OrderOfStampedRight(recs: seq<Rec>)
    requires AllStamped(recs) && AllCompareRightly(recs)
    ensures TimesOf(recs).order == if Sorted(recs) then InOrder else NotInOrder
  {
    StampsOfAll(recs);
    SortedIffNotDescending(recs);
    OrderRight(recs);
  }

  /** If packets compare rightly with those that precede them: earliest, latest and order are right. */
  lemma TimesRight(recs: seq<Rec>)
    requires recs != [] && AllStamped(recs) && AllCompareRightly(recs)
    ensures Earliest(recs, TimesOf(recs).earliest) && Latest(recs, TimesOf(recs).latest)
    ensures TimesOf(recs).order == if Sorted(recs) then InOrder else NotInOrder
    ensures TimesOf(recs).haveTimes && TimesOf(recs).packet == |recs|
  {
    EarliestAndLatestRight(recs);
    OrderOfStampedRight(recs);
    StampsOfAll(recs);
    VerdictOf(recs);
  }

  // Stamped files that are sorted

  lemma SortedPart(recs: seq<Rec>)
    requires recs != [] && AllStamped(recs) && Sorted(recs)
    ensures AllStamped(recs[..|recs| - 1]) && Sorted(recs[..|recs| - 1])
    ensures |recs| > 1 ==> !Before(recs[|recs| - 1].ts.value, recs[|recs| - 2].ts.value)
  {
    assert forall k | 0 <= k < |recs| - 1 :: recs[..|recs| - 1][k] == recs[k];
  }

  lemma OneStamp(r: Rec)
    requires r.isPacket && r.ts.Some? && Normal(r.ts.value)
    ensures TimesOf([r]) == Times(1, true, r.ts.value, r.ts.value, r.ts.value, InOrder)
  {
    assert [r][..0] == [];
    CompareRightIff(r.ts.value, r.ts.value);
  }

  lemma {:induction false} PacketsCounted(recs: seq<Rec>)
    requires forall k | 0 <= k < |recs| :: recs[k].isPacket
    ensures TimesOf(recs).packet == |recs|
  {
    if recs == [] {
    } else {
      PacketsCounted(recs[..|recs| - 1]);
    }
  }

  lemma OneMoreStamp(recs: seq<Rec>)
    requires |recs| > 1 && AllStamped(recs)
    ensures TimesOf(recs).packet == |recs|
    ensures var ts, t := recs[|recs| - 1].ts.value, TimesOf(recs[..|recs| - 1]);
            && TimesOf(recs).earliest == (if Cmp(ts, t.earliest) < 0 then ts else t.earliest)
            && TimesOf(recs).latest == (if Cmp(ts, t.latest) > 0 then ts else t.latest)
  {
    PacketsCounted(recs);
    PacketsCounted(recs[..|recs| - 1]);
  }

  /** No packet is called before the first. */
  predicate NoneBeforeFirst(recs: seq<Rec>)
    requires AllStamped(recs)
  {
    forall k | 0 <= k < |recs| :: !Negative(recs[k].ts.value, recs[0].ts.value)
  }

  /** One more stamp, not before the last, when the earliest time so far is the first, or after it. */
  lemma EarliestStep(first: NsTime, last: NsTime, e: NsTime, ts: NsTime)
    requires Normal(first) && Normal(last) && Normal(e) && Normal(ts)
    requires !Before(last, e) && !Before(ts, last) && (e == first || Before(first, e))
    ensures var e1 := if Cmp(ts, e) < 0 then ts else e;
            && Normal(e1) && !Before(ts, e1)
            && (e1 == first <==> e == first && !Negative(ts, first)) && (e1 == first || Before(first, e1))
  {
    CompareRightIff(ts, e);
  }

  lemma {:induction false} EarliestOfSorted(recs: seq<Rec>)
    requires recs != [] && AllStamped(recs) && Sorted(recs)
    ensures var e, first, last := TimesOf(recs).earliest, recs[0].ts.value, recs[|recs| - 1].ts.value;
            && Normal(e) && !Before(last, e)
            && (e == first <==> NoneBeforeFirst(recs)) && (e == first || Before(first, e))
  {
    var n := |recs| - 1;
    if n == 0 {
      assert recs == [recs[0]];
      OneStamp(recs[0]);
    } else {
      SortedPart(recs);
      EarliestOfSorted(recs[..n]);
      OneMoreStamp(recs);
      EarliestStep(recs[0].ts.value, recs[n - 1].ts.value, TimesOf(recs[..n]).earliest, recs[n].ts.value);
      assert NoneBeforeFirst(recs) <==> NoneBeforeFirst(recs[..n]) && !Negative(recs[n].ts.value, recs[0].ts.value) by {
        assert forall k | 0 <= k < n :: recs[..n][k] == recs[k];
      }
    }
  }

  /** The earliest time of a sorted file is right if and only if no packet is called before the first;
      otherwise it is too late. */
  lemma EarliestRightIff(recs: seq<Rec>)
    requires recs != [] && AllStamped(recs) && Sorted(recs)
    ensures Earliest(recs, TimesOf(recs).earliest) <==> NoneBeforeFirst(recs)
    ensures !NoneBeforeFirst(recs) ==> Before(recs[0].ts.value, TimesOf(recs).earliest)
  {
    EarliestOfSorted(recs);
    if NoneBeforeFirst(recs) {
      assert forall k | 0 < k < |recs| :: !Before(recs[k].ts.value, recs[0].ts.value);
      assert recs[0].ts.value == TimesOf(recs).earliest;
    }
  }

  /** No packet is called before the previous one. */
  predicate NoneBeforePrevious(recs: seq<Rec>)
    requires AllStamped(recs)
  {
    forall k | 0 <= k < |recs| - 1 :: !Negative(recs[k + 1].ts.value, recs[k].ts.value)
  }

  lemma NoneBeforePreviousMore(recs: seq<Rec>)
    requires |recs| > 1 && AllStamped(recs) && AllStamped(recs[..|recs| - 1])
    ensures var n := |recs| - 1;
            NoneBeforePrevious(recs) <==> NoneBeforePrevious(recs[..n]) && !Negative(recs[n].ts.value, recs[n - 1].ts.value)
  {
    var n := |recs| - 1;
    assert forall k | 0 <= k < n :: recs[..n][k] == recs[k];
    assert NoneBeforePrevious(recs[..n]) <==> forall k | 0 <= k < n - 1 :: !Negative(recs[k + 1].ts.value, recs[k].ts.value);
    if NoneBeforePrevious(recs) {
      assert !Negative(recs[n - 1 + 1].ts.value, recs[n - 1].ts.value);
    }
  }

  /** The seconds of a file, from first to last, are less than 2^32 apart. */
  predicate Spans32Bits(recs: seq<Rec>)
    requires recs != [] && AllStamped(recs)
  {
    recs[|recs| - 1].ts.value.secs - recs[0].ts.value.secs < 0x1_0000_0000
  }

  /** The latest time is the last one, or 2^31 seconds behind it. */
  predicate LastOrFarBehind(l: NsTime, last: NsTime, isLast: bool) {
    if isLast then l == last else l.secs + 0x8000_0000 <= last.secs
  }

  lemma LatestStep(l: NsTime, last: NsTime, ts: NsTime, isLast: bool)
    requires Normal(l) && Normal(last) && Normal(ts) && !Before(ts, last) && LastOrFarBehind(l, last, isLast)
    requires ts.secs - l.secs < 0x1_0000_0000
    ensures var l1 := if Cmp(ts, l) > 0 then ts else l;
            Normal(l1) && l1.secs >= l.secs && LastOrFarBehind(l1, ts, isLast && !Negative(ts, last))
  {
    if isLast {
      LatestFromLast(last, ts);
    } else {
      assert 0x8000_0000 <= ts.secs - l.secs < 0x1_0000_0000;
      assert Cmp(ts, l) < 0;
    }
  }

  lemma LatestFromLast(last: NsTime, ts: NsTime)
    requires Normal(last) && Normal(ts) && !Before(ts, last) && ts.secs - last.secs < 0x1_0000_0000
    ensures var l1 := if Cmp(ts, last) > 0 then ts else last;
            if Negative(ts, last) then l1 == last && last.secs + 0x8000_0000 <= ts.secs else l1 == ts
  {
    if ts.secs > last.secs {
      assert (ts.secs - last.secs) % 0x1_0000_0000 == ts.secs - last.secs;
    }
  }

  lemma {:induction false} LatestOfSorted(recs: seq<Rec>)
    requires recs != [] && AllStamped(recs) && Sorted(recs) && Spans32Bits(recs)
    ensures Normal(TimesOf(recs).latest) && recs[0].ts.value.secs <= TimesOf(recs).latest.secs
    ensures LastOrFarBehind(TimesOf(recs).latest, recs[|recs| - 1].ts.value, NoneBeforePrevious(recs))
  {
    var n := |recs| - 1;
    if n == 0 {
      assert recs == [recs[0]];
      OneStamp(recs[0]);
    } else {
      SortedPart(recs);
      assert recs[..n][n - 1] == recs[n - 1];
      LatestOfSorted(recs[..n]);
      OneMoreStamp(recs);
      NoneBeforePreviousMore(recs);
      LatestStep(TimesOf(recs[..n]).latest, recs[n - 1].ts.value, recs[n].ts.value, NoneBeforePrevious(recs[..n]));
    }
  }

  /** The latest time of a sorted file that spans less than 2^32 seconds is right if and only if no
      packet is called before the previous one; otherwise it is at least 2^31 seconds too early. */
  lemma LatestRightIff(recs: seq<Rec>)
    requires recs != [] && AllStamped(recs) && Sorted(recs) && Spans32Bits(recs)
    ensures Latest(recs, TimesOf(recs).latest) <==> NoneBeforePrevious(recs)
    ensures !NoneBeforePrevious(recs) ==> TimesOf(recs).latest.secs + 0x8000_0000 <= recs[|recs| - 1].ts.value.secs
  {
    LatestOfSorted(recs);
    LastIsLatest(recs);
    if !NoneBeforePrevious(recs) {
      assert Before(TimesOf(recs).latest, recs[|recs| - 1].ts.value);
    }
  }

  lemma LastIsLatest(recs: seq<Rec>)
    requires recs != [] && AllStamped(recs) && Sorted(recs)
    ensures Latest(recs, recs[|recs| - 1].ts.value)
  {
    assert recs[|recs| - 1].ts.value == recs[|recs| - 1].ts.value;
  }

  /** Each packet compares rightly with the previous one. */
  predicate SmallSteps(recs: seq<Rec>)
    requires AllStamped(recs)
  {
    forall k | 0 <= k < |recs| - 1 :: ComparesRightly(recs[k + 1].ts.value, recs[k].ts.value)
  }

  lemma SmallStepsPart(recs: seq<Rec>)
    requires |recs| > 1 && AllStamped(recs) && SmallSteps(recs) && AllStamped(recs[..|recs| - 1])
    ensures SmallSteps(recs[..|recs| - 1]) && ComparesRightly(recs[|recs| - 1].ts.value, recs[|recs| - 2].ts.value)
  {
    var n := |recs| - 1;
    assert ComparesRightly(recs[n - 1 + 1].ts.value, recs[n - 1].ts.value);
    assert forall k | 0 <= k < n :: recs[..n][k] == recs[k];
  }

  lemma {:induction false} LatestIsLast(recs: seq<Rec>)
    requires recs != [] && AllStamped(recs) && Sorted(recs) && SmallSteps(recs)
    ensures TimesOf(recs).latest == recs[|recs| - 1].ts.value
  {
    var n := |recs| - 1;
    if n == 0 {
      assert recs == [recs[0]];
      OneStamp(recs[0]);
    } else {
      SortedPart(recs);
      SmallStepsPart(recs);
      LatestIsLast(recs[..n]);
      OneMoreStamp(recs);
      assert recs[..n][n - 1] == recs[n - 1];
      CompareRightIff(recs[n].ts.value, recs[n - 1].ts.value);
    }
  }

  /** A sorted file of any span whose packets compare rightly with the previous ones: the latest time
      and the order are right, and the earliest is if and only if no packet is called before the
      first. */
  lemma SmallStepsRight(recs: seq<Rec>)
    requires recs != [] && AllStamped(recs) && Sorted(recs) && SmallSteps(recs)
    ensures Latest(recs, TimesOf(recs).latest) && TimesOf(recs).order == InOrder
    ensures Earliest(recs, TimesOf(recs).earliest) <==> NoneBeforeFirst(recs)
  {
    LatestIsLast(recs);
    LastIsLatest(recs);
    EarliestRightIff(recs);
    assert forall k | 0 <= k < |recs| - 1 :: !Negative(recs[k + 1].ts.value, recs[k].ts.value);
    SortedFileRightIff(recs);
  }

  // Records that are not packets

  function AsPackets(recs: seq<Rec>): (r: seq<Rec>)
    ensures |r| == |recs| && forall i | 0 <= i < |recs| :: r[i] == recs[i].(isPacket := true)
  {
    seq(|recs|, i requires 0 <= i < |recs| => recs[i].(isPacket := true))
  }

  predicate NoPackets(recs: seq<Rec>) {
    forall i | 0 <= i < |recs| :: !recs[i].isPacket
  }

  lemma TimesOneMore(recs: seq<Rec>, r: Rec)
    ensures TimesOf(recs + [r]) == Timed(TimesOf(recs), r)
  {
    assert (recs + [r])[..|recs + [r]| - 1] == recs;
  }

  /** Before the first packet the times are forgotten with each record; only a missing one is not. */
  lemma {:induction false} TimesBeforePackets(recs: seq<Rec>)
    requires NoPackets(recs)
    ensures var t := TimesOf(recs);
            && t.packet == 0 && t.haveTimes == !AnyUnstamped(recs)
            && t.order == Leaves(recs)
  {
    if recs == [] {
    } else {
      TimesBeforePackets(recs[..|recs| - 1]);
      UnstampedOneMore(recs);
    }
  }

  /** Times are had if and only if every record has one. */
  lemma {:induction false} HaveTimesIff(recs: seq<Rec>)
    ensures TimesOf(recs).haveTimes <==> !AnyUnstamped(recs)
  {
    if recs == [] {
    } else {
      HaveTimesIff(recs[..|recs| - 1]);
      UnstampedOneMore(recs);
    }
  }

  /** What the records before the first packet leave behind. */
  function After(before: Order, times: Order): Order {
    if times == NotInOrder then NotInOrder else if before == OrderUnknown then OrderUnknown else times
  }

  function Leaves(before: seq<Rec>): Order {
    if AnyUnstamped(before) then OrderUnknown else InOrder
  }

  ghost predicate SameTimes(before: Order, t: Times, u: Times) {
    && t.earliest == u.earliest && t.latest == u.latest && t.cur == u.cur && t.order == After(before, u.order)
    && t.packet > 0 && u.packet > 0
  }

  lemma SameTimesOneMore(before: Order, t: Times, u: Times, r: Rec)
    requires SameTimes(before, t, u)
    ensures SameTimes(before, Timed(t, r), Timed(u, r.(isPacket := true)))
  {
  }

  /** The first packet, if it is stamped, starts the times; from then on every stamped record counts,
      whether it is a packet or not. Records before it count only if they have no stamp, and then only
      for the order. */
  lemma {:induction false} TimesFromFirstPacket(before: seq<Rec>, recs: seq<Rec>)
    requires NoPackets(before) && recs != [] && recs[0].isPacket && recs[0].ts.Some?
    ensures SameTimes(Leaves(before), TimesOf(before + recs), TimesOf(AsPackets(recs)))
  {
    var n := |recs| - 1;
    if n == 0 {
      assert recs == [recs[0]];
      FirstPacket(before, recs[0]);
    } else {
      TimesFromFirstPacket(before, recs[..n]);
      Associate(before, recs[..n], [recs[n]]);
      assert recs[..n] + [recs[n]] == recs && AsPackets(recs[..n]) + [recs[n].(isPacket := true)] == AsPackets(recs);
      TimesOneMore(before + recs[..n], recs[n]);
      TimesOneMore(AsPackets(recs[..n]), recs[n].(isPacket := true));
      SameTimesOneMore(Leaves(before), TimesOf(before + recs[..n]), TimesOf(AsPackets(recs[..n])), recs[n]);
    }
  }

  lemma FirstPacket(before: seq<Rec>, r: Rec)
    requires NoPackets(before) && r.isPacket && r.ts.Some?
    ensures SameTimes(Leaves(before), TimesOf(before + [r]), TimesOf(AsPackets([r])))
  {
    assert AsPackets([r]) == [] + [r];
    TimesBeforePackets(before);
    TimesOneMore(before, r);
    TimesOneMore([], r);
    assert Cmp(r.ts.value, r.ts.value) == 0;
  }

  // Files that are judged wrongly

  /** Two packets in order, 2^31 seconds apart, are called not in order, and the later one the
      earliest. */
  lemma FarApartMisjudged()
    ensures var recs := [Rec(Some(ZERO), true, None, 0), Rec(Some(NsTime(0x8000_0000, 0)), true, None, 0)];
            && Sorted(recs) && TimesOf(recs).order == NotInOrder
            && TimesOf(recs).earliest == NsTime(0x8000_0000, 0) && TimesOf(recs).latest == ZERO
  {
    var recs := [Rec(Some(ZERO), true, None, 0), Rec(Some(NsTime(0x8000_0000, 0)), true, None, 0)];
    assert recs[..1] == [recs[0]] && recs[..1][..0] == [];
    assert TimesOf(recs[..1]) == Timed(NO_TIMES, recs[0]);
  }

  /** Two packets in order, 2^32 seconds apart: the comparison calls them simultaneous, so that the
      verdict is right and the latest time is not. */
  lemma FarApartSimultaneous()
    ensures var recs := [Rec(Some(ZERO), true, None, 0), Rec(Some(NsTime(0x1_0000_0000, 0)), true, None, 0)];
            && Sorted(recs) && NoneBeforePrevious(recs) && TimesOf(recs).order == InOrder
            && TimesOf(recs).latest == ZERO && !Latest(recs, TimesOf(recs).latest)
  {
    var recs := [Rec(Some(ZERO), true, None, 0), Rec(Some(NsTime(0x1_0000_0000, 0)), true, None, 0)];
    assert recs[..1] == [recs[0]] && recs[..1][..0] == [];
    assert TimesOf(recs[..1]) == Timed(NO_TIMES, recs[0]);
    assert Before(ZERO, recs[1].ts.value);
  }

  /** A packet without a stamp and then one at 2^31 seconds, 19 January 2038: nothing descends, and the
      file is called not in order. */
  lemma FirstUnstampedMisjudged()
    ensures var recs := [Rec(None, true, None, 0), Rec(Some(NsTime(0x8000_0000, 0)), true, None, 0)];
            && Documented(recs) == OrderUnknown && TimesOf(recs).order == NotInOrder
  {
    var recs := [Rec(None, true, None, 0), Rec(Some(NsTime(0x8000_0000, 0)), true, None, 0)];
    assert recs[..1] == [recs[0]] && recs[..1][..0] == [];
    assert TimesOf(recs[..1]) == Timed(NO_TIMES, recs[0]);
    assert Stamps(recs[..1]) == [];
    assert |Stamps(recs)| == 1;
    assert recs[0].ts.None?;
  }

  // Interface counts

  function Total(counts: seq<nat>): nat {
    if counts == [] then 0 else Total(counts[..|counts| - 1]) + counts[|counts| - 1]
  }

  function PacketCount(recs: seq<Rec>): nat {
    if recs == [] then 0 else PacketCount(recs[..|recs| - 1]) + if recs[|recs| - 1].isPacket then 1 else 0
  }

  /** The packets with an interface id that is known when they are read. */
  function PacketsOf(recs: seq<Rec>, id: nat): nat {
    if recs == [] then 0
    else
      var r := recs[|recs| - 1];
      PacketsOf(recs[..|recs| - 1], id) + if r.isPacket && r.interfaceId == Some(id) && id < r.known then 1 else 0
  }

  /** The packets with an interface id that is not known when they are read. */
  function OutOfRange(recs: seq<Rec>): nat {
    if recs == [] then 0
    else
      var r := recs[|recs| - 1];
      OutOfRange(recs[..|recs| - 1]) + if r.isPacket && r.interfaceId.Some? && r.interfaceId.value >= r.known then 1 else 0
  }

  /** The list of interfaces was not empty at the beginning, or some packet had an id when it was no
      longer empty: then it has been fetched. */
  predicate Fetched(n: nat, recs: seq<Rec>) {
    n > 0 || exists i | 0 <= i < |recs| :: recs[i].isPacket && recs[i].interfaceId.Some? && recs[i].known > 0
  }

  /** The packets without an interface id that come before a list that is not empty has been fetched,
      or after. */
  function WithoutId(n: nat, recs: seq<Rec>, fetched: bool): nat {
    if recs == [] then 0
    else
      var r, before := recs[|recs| - 1], recs[..|recs| - 1];
      WithoutId(n, before, fetched) + if r.isPacket && r.interfaceId.None? && Fetched(n, before) == fetched then 1 else 0
  }

  /** Interface descriptions are only ever added. */
  predicate Growing(n: nat, recs: seq<Rec>) {
    && (forall i | 0 <= i < |recs| :: n <= recs[i].known)
    && (forall i, j | 0 <= i < j < |recs| :: recs[i].known <= recs[j].known)
  }

  lemma {:induction false} TotalUpdated(counts: seq<nat>, j: nat)
    requires j < |counts|
    ensures Total(counts[j := counts[j] + 1]) == Total(counts) + 1
  {
    var n := |counts| - 1;
    if j == n {
      assert counts[j := counts[j] + 1][..n] == counts[..n];
    } else {
      TotalUpdated(counts[..n], j);
      assert counts[j := counts[j] + 1][..n] == counts[..n][j := counts[j] + 1];
    }
  }

  lemma {:induction false} TotalGrown(counts: seq<nat>, n: nat)
    requires |counts| <= n
    ensures Total(Grow(counts, n)) == Total(counts)
    decreases n
  {
    if n == |counts| {
      assert Grow(counts, n) == counts;
    } else {
      TotalGrown(counts, n - 1);
      assert Grow(counts, n)[..n - 1] == Grow(counts, n - 1);
    }
  }

  lemma ZeroTotal(n: nat)
    ensures Total(seq(n, _ => 0)) == 0
  {
    TotalGrown([], n);
    assert Grow([], n) == seq(n, _ => 0);
  }

  function CountOf(c: Counts, id: nat): nat {
    if id < |c.counts| then c.counts[id] else 0
  }

  /** Each count above 0 is that of its interface; count 0 also has the packets without an id that come
      after the list has been fetched; those before are unknown. All add up to the packets. */
  ghost predicate CountsRight(n: nat, recs: seq<Rec>, c: Counts) {
    && Total(c.counts) + c.unknown == PacketCount(recs)
    && (forall id: nat | 0 < id :: CountOf(c, id) == PacketsOf(recs, id))
    && CountOf(c, 0) == PacketsOf(recs, 0) + WithoutId(n, recs, true)
    && c.unknown == OutOfRange(recs) + WithoutId(n, recs, false)
    && (|c.counts| > 0 <==> Fetched(n, recs))
  }

  lemma FetchedOneMore(n: nat, recs: seq<Rec>)
    requires recs != []
    ensures var r := recs[|recs| - 1];
            Fetched(n, recs) <==> Fetched(n, recs[..|recs| - 1]) || (r.isPacket && r.interfaceId.Some? && r.known > 0)
  {
    var before := recs[..|recs| - 1];
    assert forall i | 0 <= i < |before| :: before[i] == recs[i];
    if Fetched(n, recs) && n == 0 {
      var i :| 0 <= i < |recs| && recs[i].isPacket && recs[i].interfaceId.Some? && recs[i].known > 0;
      assert i < |before| ==> before[i].known > 0;
    }
  }

  lemma Incremented(c: Counts, id: nat)
    ensures var d := Increment(c, id);
            && Total(d.counts) + d.unknown == Total(c.counts) + c.unknown + 1 && |d.counts| == |c.counts|
            && d.unknown == c.unknown + (if id < |c.counts| then 0 else 1)
            && forall j: nat :: CountOf(d, j) == CountOf(c, j) + if j == id && id < |c.counts| then 1 else 0
  {
    if id < |c.counts| {
      TotalUpdated(c.counts, id);
    }
  }

  lemma GrownCounts(c: Counts, m: nat)
    requires |c.counts| <= m
    ensures var d := c.(counts := Grow(c.counts, m));
            Total(d.counts) == Total(c.counts) && forall j: nat :: CountOf(d, j) == CountOf(c, j)
  {
    TotalGrown(c.counts, m);
  }

  lemma OneMoreCounted(n: nat, recs: seq<Rec>, c: Counts)
    requires recs != [] && CountsRight(n, recs[..|recs| - 1], c) && |c.counts| <= recs[|recs| - 1].known
    ensures CountsRight(n, recs, Counted(c, recs[|recs| - 1]))
  {
    var r := recs[|recs| - 1];
    FetchedOneMore(n, recs);
    if r.isPacket {
      match r.interfaceId
      case None =>
        Incremented(c, 0);
      case Some(id) =>
        GrownCounts(c, r.known);
        Incremented(if id >= |c.counts| then c.(counts := Grow(c.counts, r.known)) else c, id);
    }
  }

  /** For any packets and any growth of the list of interfaces, what every count is and which packets
      are unknown. */
  lemma {:induction false} CountsAlwaysRight(n: nat, recs: seq<Rec>)
    requires Growing(n, recs)
    ensures CountsRight(n, recs, CountsOf(n, recs))
    ensures |CountsOf(n, recs).counts| <= if recs == [] then n else recs[|recs| - 1].known
  {
    if recs == [] {
      ZeroTotal(n);
    } else {
      var before := recs[..|recs| - 1];
      assert forall i | 0 <= i < |before| :: before[i] == recs[i];
      CountsAlwaysRight(n, before);
      OneMoreCounted(n, recs, CountsOf(n, before));
    }
  }

  lemma {:induction false} NoneBeforeFetch(n: nat, recs: seq<Rec>)
    requires n > 0
    ensures WithoutId(n, recs, false) == 0
  {
    if recs == [] {
    } else {
      NoneBeforeFetch(n, recs[..|recs| - 1]);
    }
  }

  /** If an interface is described before the first packet, count 0 has all packets without an id, and
      only packets whose id is not known are unknown. */
  lemma CountsWithInterfaceFirst(n: nat, recs: seq<Rec>)
    requires n > 0 && Growing(n, recs)
    ensures CountOf(CountsOf(n, recs), 0) == PacketsOf(recs, 0) + WithoutId(n, recs, true)
    ensures CountsOf(n, recs).unknown == OutOfRange(recs)
  {
    CountsAlwaysRight(n, recs);
    NoneBeforeFetch(n, recs);
  }

  /** An interface is known when a packet without an id is read, which is counted as unknown. */
  lemma KnownInterfaceMissed()
    ensures CountsOf(0, [Rec(None, true, None, 1)]) == Counts([], 1)
  {
    var recs := [Rec(None, true, None, 1)];
    assert recs[..0] == [];
    assert CountsOf(0, recs[..0]) == Counts([], 0);
  }
}
