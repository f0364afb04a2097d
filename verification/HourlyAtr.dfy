/** The 24-hour ATR each bar may use: what it is, when it exists, and that it never looks ahead. */
module HourlyAtr {
  import opened Wrappers

  const COMPLETE_HOUR_BARS: nat := 55
  const ATR_HOURS: nat := 24

  datatype Bar = Bar(minute: int, high: real, low: real, close: real)

  datatype HourBar = HourBar(hour: int, high: real, low: real, close: real, count: nat)

  ghost predicate Sorted(frame: seq<Bar>) {
    forall i, j :: 0 <= i < j < |frame| ==> frame[i].minute < frame[j].minute
  }

  function HourOf(bar: Bar): int {
    bar.minute / 60
  }

  function Max(x: real, y: real): real {
    if x < y then y else x
  }

  function Min(x: real, y: real): real {
    if y < x then y else x
  }

  function Abs(x: real): real {
    if x < 0.0 then -x else x
  }

  /** Add one bar to the groups: extend the last group's high, low, close and count, or open a new one. */
  function AddBar(hours: seq<HourBar>, bar: Bar): (grouped: seq<HourBar>)
    ensures grouped != [] && grouped[|grouped| - 1].hour == HourOf(bar)
  {
    var last := |hours| - 1;
    if hours != [] && hours[last].hour == HourOf(bar) then
      var g := hours[last];
      hours[..last] + [HourBar(g.hour, Max(g.high, bar.high), Min(g.low, bar.low), bar.close, g.count + 1)]
    else hours + [HourBar(HourOf(bar), bar.high, bar.low, bar.close, 1)]
  }

  /** Group a sorted frame by hour: highest high, lowest low, last close, number of bars. */
  function Hourly(frame: seq<Bar>): seq<HourBar> {
    if frame == [] then []
    else AddBar(Hourly(frame[..|frame| - 1]), frame[|frame| - 1])
  }

  function Complete(hours: seq<HourBar>): seq<HourBar> {
    if hours == [] then []
    else
      var last := hours[|hours| - 1];
      Complete(hours[..|hours| - 1]) + if last.count >= COMPLETE_HOUR_BARS then [last] else []
  }

  /** True range against the previous complete hour; the first has none. */
  function TrueRange(complete: seq<HourBar>, i: nat): real
    requires i < |complete|
  {
    var h := complete[i];
    if i == 0 then h.high - h.low
    else
      var previousClose := complete[i - 1].close;
      Max(h.high - h.low, Max(Abs(h.high - previousClose), Abs(h.low - previousClose)))
  }

  function SumRanges(complete: seq<HourBar>, lo: nat, hi: nat): real
    requires lo <= hi <= |complete|
    decreases hi - lo
  {
    if lo == hi then 0.0 else SumRanges(complete, lo, hi - 1) + TrueRange(complete, hi - 1)
  }

  /** Rolling mean of 24 true ranges ending at complete hour `i`. */
  function RollingAtr(complete: seq<HourBar>, i: nat): Option<real>
    requires i < |complete|
  {
    if i + 1 < ATR_HOURS then None
    else Some(SumRanges(complete, i + 1 - ATR_HOURS, i + 1) / ATR_HOURS as real)
  }

  function Find(complete: seq<HourBar>, hour: int): (i: Option<nat>)
    ensures i.Some? ==> i.value < |complete| && complete[i.value].hour == hour
  {
    if complete == [] then None
    else if complete[|complete| - 1].hour == hour then Some(|complete| - 1)
    else Find(complete[..|complete| - 1], hour)
  }

  /** The ATR of the hour before, looked up among the complete hours. */
  function AtrAmong(complete: seq<HourBar>, hour: int): Option<real> {
    match Find(complete, hour - 1)
    case None => None
    case Some(i) => RollingAtr(complete, i)
  }

  /** What the bars of `hour` are given. */
  function AtrFor(frame: seq<Bar>, hour: int): Option<real> {
    AtrAmong(Complete(Hourly(frame)), hour)
  }

  function HourlyAtr24(frame: seq<Bar>): (atr: seq<Option<real>>)
    ensures |atr| == |frame|
  {
    seq(|frame|, i requires 0 <= i < |frame| => AtrFor(frame, HourOf(frame[i])))
  }

  // ----- the grouping against its declarative reading

  /** The bars of one hour, in order. */
  function BarsOf(frame: seq<Bar>, hour: int): (bars: seq<Bar>) {
    if frame == [] then []
    else
      var bar := frame[|frame| - 1];
      BarsOf(frame[..|frame| - 1], hour) + if HourOf(bar) == hour then [bar] else []
  }

  lemma {:induction false} BarsOfMember(frame: seq<Bar>, hour: int, i: nat)
    requires i < |BarsOf(frame, hour)|
    ensures BarsOf(frame, hour)[i] in frame && HourOf(BarsOf(frame, hour)[i]) == hour
  {
    var front := frame[..|frame| - 1];
    if i < |BarsOf(front, hour)| {
      BarsOfMember(front, hour, i);
    }
  }

  function MaxHigh(bars: seq<Bar>): real
    requires bars != []
  {
    if |bars| == 1 then bars[0].high else Max(MaxHigh(bars[..|bars| - 1]), bars[|bars| - 1].high)
  }

  function MinLow(bars: seq<Bar>): real
    requires bars != []
  {
    if |bars| == 1 then bars[0].low else Min(MinLow(bars[..|bars| - 1]), bars[|bars| - 1].low)
  }

  function Summary(hour: int, bars: seq<Bar>): HourBar
    requires bars != []
  {
    HourBar(hour, MaxHigh(bars), MinLow(bars), bars[|bars| - 1].close, |bars|)
  }

  /** A summary's high and low are attained and bound every bar. */
  lemma {:induction false} SummaryBounds(bars: seq<Bar>)
    requires bars != []
    ensures forall i :: 0 <= i < |bars| ==> MinLow(bars) <= bars[i].low && bars[i].high <= MaxHigh(bars)
    ensures exists i :: 0 <= i < |bars| && bars[i].high == MaxHigh(bars)
    ensures exists i :: 0 <= i < |bars| && bars[i].low == MinLow(bars)
  {
    if |bars| > 1 {
      var front := bars[..|bars| - 1];
      SummaryBounds(front);
      var i :| 0 <= i < |front| && front[i].high == MaxHigh(front);
      var j :| 0 <= j < |front| && front[j].low == MinLow(front);
      var last := |bars| - 1;
      assert MaxHigh(bars) == bars[if front[i].high < bars[last].high then last else i].high;
      assert MinLow(bars) == bars[if bars[last].low < front[j].low then last else j].low;
    } else {
      assert MaxHigh(bars) == bars[0].high && MinLow(bars) == bars[0].low;
    }
  }

  ghost predicate HoursIncrease(hours: seq<HourBar>) {
    forall i, j :: 0 <= i < j < |hours| ==> hours[i].hour < hours[j].hour
  }

  ghost predicate HasHour(hours: seq<HourBar>, hour: int) {
    exists i :: 0 <= i < |hours| && hours[i].hour == hour
  }

  /** One group per hour that has bars, in order, each the summary of exactly the bars of its hour. */
  ghost predicate Grouped(frame: seq<Bar>, hours: seq<HourBar>) {
    && HoursIncrease(hours)
    && (forall i :: 0 <= i < |hours| ==> IsSummary(frame, hours[i]))
    && (forall h :: BarsOf(frame, h) != [] ==> HasHour(hours, h))
  }

  ghost predicate IsSummary(frame: seq<Bar>, g: HourBar) {
    BarsOf(frame, g.hour) != [] && g == Summary(g.hour, BarsOf(frame, g.hour))
  }

  lemma {:induction false} BarsOfAppend(front: seq<Bar>, bar: Bar, hour: int)
    ensures BarsOf(front + [bar], hour) == BarsOf(front, hour) + if HourOf(bar) == hour then [bar] else []
  {
    assert (front + [bar])[..|front|] == front;
  }

  lemma {:induction false} MergeIsSummary(front: seq<Bar>, g: HourBar, bar: Bar)
    requires IsSummary(front, g) && g.hour == HourOf(bar)
    ensures IsSummary(front + [bar],
      HourBar(g.hour, Max(g.high, bar.high), Min(g.low, bar.low), bar.close, g.count + 1))
  {
    BarsOfAppend(front, bar, g.hour);
    var bars := BarsOf(front, g.hour);
    assert (bars + [bar])[..|bars|] == bars;
  }

  /** The earlier groups do not see a bar of a later hour. */
  lemma {:induction false} EarlierHourStays(front: seq<Bar>, hours: seq<HourBar>, bar: Bar, i: nat)
    requires HoursIncrease(hours) && i < |hours| && IsSummary(front, hours[i])
    requires hours[|hours| - 1].hour <= HourOf(bar) && (i == |hours| - 1 ==> hours[i].hour != HourOf(bar))
    ensures IsSummary(front + [bar], hours[i])
  {
    OtherHourStays(front, hours[i], bar);
  }

  lemma {:induction false} AddBarKeepsSummaries(front: seq<Bar>, hours: seq<HourBar>, bar: Bar, i: nat)
    requires Grouped(front, hours)
    requires hours != [] ==> hours[|hours| - 1].hour <= HourOf(bar)
    requires i < |AddBar(hours, bar)|
    ensures IsSummary(front + [bar], AddBar(hours, bar)[i])
  {
    var last := |hours| - 1;
    if i < last || (i == last && hours[last].hour != HourOf(bar)) {
      EarlierHourStays(front, hours, bar, i);
    } else if i == last {
      assert IsSummary(front, hours[last]);
      MergeIsSummary(front, hours[last], bar);
    } else {
      NoneBefore(front, hours, bar);
      FirstIsSummary(front, bar);
    }
  }

  lemma {:induction false} NoneBefore(front: seq<Bar>, hours: seq<HourBar>, bar: Bar)
    requires Grouped(front, hours)
    requires hours != [] ==> hours[|hours| - 1].hour < HourOf(bar)
    ensures BarsOf(front, HourOf(bar)) == []
  {
    assert !HasHour(hours, HourOf(bar));
  }

  lemma {:induction false} OtherHourStays(front: seq<Bar>, g: HourBar, bar: Bar)
    requires IsSummary(front, g) && g.hour != HourOf(bar)
    ensures IsSummary(front + [bar], g)
  {
    BarsOfAppend(front, bar, g.hour);
    assert BarsOf(front + [bar], g.hour) == BarsOf(front, g.hour);
  }

  lemma {:induction false} FirstIsSummary(front: seq<Bar>, bar: Bar)
    requires BarsOf(front, HourOf(bar)) == []
    ensures IsSummary(front + [bar], HourBar(HourOf(bar), bar.high, bar.low, bar.close, 1))
  {
    BarsOfAppend(front, bar, HourOf(bar));
    assert BarsOf(front + [bar], HourOf(bar)) == [bar];
  }

  lemma {:induction false} AddBarKeepsHours(front: seq<Bar>, hours: seq<HourBar>, bar: Bar, h: int)
    requires Grouped(front, hours)
    requires BarsOf(front + [bar], h) != []
    ensures HasHour(AddBar(hours, bar), h)
  {
    var grouped := AddBar(hours, bar);
    BarsOfAppend(front, bar, h);
    if h == HourOf(bar) {
      assert grouped[|grouped| - 1].hour == h;
    } else {
      assert HasHour(hours, h);
      var i :| 0 <= i < |hours| && hours[i].hour == h;
      assert grouped[i].hour == h;
    }
  }

  lemma {:induction false} AddBarKeepsOrder(hours: seq<HourBar>, bar: Bar)
    requires HoursIncrease(hours)
    requires hours != [] ==> hours[|hours| - 1].hour <= HourOf(bar)
    ensures HoursIncrease(AddBar(hours, bar))
  {
  }

  lemma {:induction false} AddBarKeepsGroups(front: seq<Bar>, hours: seq<HourBar>, bar: Bar)
    requires Grouped(front, hours)
    requires hours != [] ==> hours[|hours| - 1].hour <= HourOf(bar)
    ensures Grouped(front + [bar], AddBar(hours, bar))
  {
    AddBarKeepsOrder(hours, bar);
    forall i | 0 <= i < |AddBar(hours, bar)|
      ensures IsSummary(front + [bar], AddBar(hours, bar)[i])
    {
      AddBarKeepsSummaries(front, hours, bar, i);
    }
    forall h | BarsOf(front + [bar], h) != []
      ensures HasHour(AddBar(hours, bar), h)
    {
      AddBarKeepsHours(front, hours, bar, h);
    }
  }

  lemma {:induction false} HourlyOfAppend(frame: seq<Bar>, bar: Bar)
    ensures Hourly(frame + [bar]) == AddBar(Hourly(frame), bar)
  {
    assert (frame + [bar])[..|frame|] == frame;
  }

  lemma {:induction false} HourlyEnds(frame: seq<Bar>)
    requires frame != []
    ensures Hourly(frame) != [] && Hourly(frame)[|Hourly(frame)| - 1].hour == HourOf(frame[|frame| - 1])
  {
  }

  lemma {:induction false} GroupedNext(front: seq<Bar>, bar: Bar)
    requires Sorted(front + [bar]) && Grouped(front, Hourly(front))
    ensures Grouped(front + [bar], Hourly(front + [bar]))
  {
    if front != [] {
      HourlyEnds(front);
      var last := (front + [bar])[|front| - 1];
      assert last == front[|front| - 1] && last.minute < (front + [bar])[|front|].minute;
    }
    AddBarKeepsGroups(front, Hourly(front), bar);
    HourlyOfAppend(front, bar);
  }

  /** On a sorted frame the running grouping is the declarative one. */
  lemma {:induction false} HourlyIsGrouped(frame: seq<Bar>)
    requires Sorted(frame)
    ensures Grouped(frame, Hourly(frame))
  {
    if frame != [] {
      var front, bar := frame[..|frame| - 1], frame[|frame| - 1];
      HourlyIsGrouped(front);
      assert frame == front + [bar];
      GroupedNext(front, bar);
    }
  }

  // ----- no look-ahead

  /** The bars before an hour; on a sorted frame, a prefix. */
  function Before(frame: seq<Bar>, hour: int): (prefix: seq<Bar>) {
    if frame == [] then []
    else
      var bar := frame[|frame| - 1];
      Before(frame[..|frame| - 1], hour) + if HourOf(bar) < hour then [bar] else []
  }

  ghost predicate HoursFrom(hours: seq<HourBar>, hour: int) {
    forall i :: 0 <= i < |hours| ==> hours[i].hour >= hour
  }

  ghost predicate HoursBefore(hours: seq<HourBar>, hour: int) {
    forall i :: 0 <= i < |hours| ==> hours[i].hour < hour
  }

  lemma {:induction false} AddEarlierBar(hours: seq<HourBar>, bar: Bar, hour: int)
    requires HoursBefore(hours, hour) && HourOf(bar) < hour
    ensures HoursBefore(AddBar(hours, bar), hour)
  {
  }

  lemma {:induction false} GroupsOfEarlierBars(frame: seq<Bar>, hour: int)
    ensures HoursBefore(Hourly(Before(frame, hour)), hour)
  {
    if frame != [] {
      var front, bar := frame[..|frame| - 1], frame[|frame| - 1];
      GroupsOfEarlierBars(front, hour);
      if HourOf(bar) < hour {
        HourlyOfAppend(Before(front, hour), bar);
        AddEarlierBar(Hourly(Before(front, hour)), bar, hour);
      } else {
        assert Before(frame, hour) == Before(front, hour);
      }
    }
  }

  lemma {:induction false} AddBarToTail(head: seq<HourBar>, tail: seq<HourBar>, bar: Bar, hour: int)
    requires HoursBefore(head, hour) && HoursFrom(tail, hour) && HourOf(bar) >= hour
    ensures AddBar(head + tail, bar) == head + AddBar(tail, bar)
    ensures HoursFrom(AddBar(tail, bar), hour)
  {
    if tail == [] {
      assert head + tail == head;
    }
  }

  lemma {:induction false} BeforeOfEarlierFrame(frame: seq<Bar>, hour: int)
    requires Sorted(frame) && frame != [] && HourOf(frame[|frame| - 1]) < hour
    ensures Before(frame, hour) == frame
  {
    var front := frame[..|frame| - 1];
    if front != [] {
      assert front[|front| - 1].minute < frame[|frame| - 1].minute;
      BeforeOfEarlierFrame(front, hour);
    }
  }

  /** The bars from an hour on only add groups from that hour on. */
  lemma {:induction false} LaterBarsOnlyAddLaterHours(frame: seq<Bar>, hour: int) returns (tail: seq<HourBar>)
    requires Sorted(frame)
    ensures Hourly(frame) == Hourly(Before(frame, hour)) + tail && HoursFrom(tail, hour)
  {
    if frame == [] {
      tail := [];
    } else {
      var front, bar := frame[..|frame| - 1], frame[|frame| - 1];
      if HourOf(bar) < hour {
        BeforeOfEarlierFrame(frame, hour);
        tail := [];
      } else {
        var earlier := LaterBarsOnlyAddLaterHours(front, hour);
        GroupsOfEarlierBars(front, hour);
        AddBarToTail(Hourly(Before(front, hour)), earlier, bar, hour);
        assert Before(frame, hour) == Before(front, hour);
        tail := AddBar(earlier, bar);
      }
    }
  }

  lemma {:induction false} CompleteOfConcat(head: seq<HourBar>, tail: seq<HourBar>)
    ensures Complete(head + tail) == Complete(head) + Complete(tail)
    ensures forall g :: g in Complete(tail) ==> g in tail
  {
    if tail == [] {
      assert head + tail == head;
    } else {
      var front := tail[..|tail| - 1];
      CompleteOfConcat(head, front);
      assert (head + tail)[..|head + tail| - 1] == head + front;
      assert tail == front + [tail[|tail| - 1]];
    }
  }

  lemma {:induction false} FindInPrefix(head: seq<HourBar>, tail: seq<HourBar>, hour: int)
    requires forall g :: g in tail ==> g.hour > hour
    ensures Find(head + tail, hour) == Find(head, hour)
  {
    if tail == [] {
      assert head + tail == head;
    } else {
      var front := tail[..|tail| - 1];
      assert (head + tail)[..|head + tail| - 1] == head + front;
      FindInPrefix(head, front, hour);
    }
  }

  lemma {:induction false} RangesOfPrefix(head: seq<HourBar>, tail: seq<HourBar>, lo: nat, hi: nat)
    requires lo <= hi <= |head|
    ensures SumRanges(head + tail, lo, hi) == SumRanges(head, lo, hi)
    decreases hi - lo
  {
    if lo < hi {
      RangesOfPrefix(head, tail, lo, hi - 1);
    }
  }

  lemma {:induction false} LaterHoursDoNotMatter(head: seq<HourBar>, tail: seq<HourBar>, hour: int)
    requires forall g :: g in tail ==> g.hour > hour - 1
    ensures AtrAmong(head + tail, hour) == AtrAmong(head, hour)
  {
    FindInPrefix(head, tail, hour - 1);
    match Find(head, hour - 1)
    case None =>
    case Some(i) =>
      if i + 1 >= ATR_HOURS {
        RangesOfPrefix(head, tail, i + 1 - ATR_HOURS, i + 1);
      }
  }

  /** The value an hour's bars are given depends on the bars before that hour alone. */
  lemma {:induction false} AtrFromEarlierBars(frame: seq<Bar>, hour: int)
    requires Sorted(frame)
    ensures AtrFor(frame, hour) == AtrFor(Before(frame, hour), hour)
  {
    var tail := LaterBarsOnlyAddLaterHours(frame, hour);
    var head := Hourly(Before(frame, hour));
    CompleteOfConcat(head, tail);
    LaterHoursDoNotMatter(Complete(head), Complete(tail), hour);
  }

  /** Two frames that agree before an hour give every bar of that hour the same ATR. */
  lemma {:induction false} NoLookAhead(f: seq<Bar>, g: seq<Bar>, i: nat, j: nat)
    requires Sorted(f) && Sorted(g) && i < |f| && j < |g| && HourOf(f[i]) == HourOf(g[j])
    requires Before(f, HourOf(f[i])) == Before(g, HourOf(f[i]))
    ensures HourlyAtr24(f)[i] == HourlyAtr24(g)[j]
  {
    AtrFromEarlierBars(f, HourOf(f[i]));
    AtrFromEarlierBars(g, HourOf(f[i]));
  }

  // ----- when a value exists

  /** The hours up to `hour` that have at least 55 bars. */
  ghost function CompleteHours(frame: seq<Bar>, hour: int): set<int> {
    set b | b in frame && HourOf(b) <= hour && |BarsOf(frame, HourOf(b))| >= COMPLETE_HOUR_BARS :: HourOf(b)
  }

  lemma {:induction false} CompleteKeepsOrder(hours: seq<HourBar>)
    requires HoursIncrease(hours)
    ensures HoursIncrease(Complete(hours))
    ensures forall g :: g in Complete(hours) <==> g in hours && g.count >= COMPLETE_HOUR_BARS
  {
    if hours != [] {
      var front := hours[..|hours| - 1];
      assert hours == front + [hours[|hours| - 1]];
      CompleteKeepsOrder(front);
    }
  }

  lemma {:induction false} FindFinds(complete: seq<HourBar>, hour: int)
    ensures Find(complete, hour).None? <==> forall g :: g in complete ==> g.hour != hour
  {
    if complete != [] {
      FindFinds(complete[..|complete| - 1], hour);
      assert complete == complete[..|complete| - 1] + [complete[|complete| - 1]];
    }
  }

  lemma {:induction false} HoursUpTo(complete: seq<HourBar>, n: nat)
    requires HoursIncrease(complete) && n <= |complete|
    ensures |ListedHours(complete, n)| == n
  {
    if n > 0 {
      HoursUpTo(complete, n - 1);
      var fewer := ListedHours(complete, n - 1);
      assert complete[n - 1].hour !in fewer;
      assert ListedHours(complete, n) == fewer + {complete[n - 1].hour};
    }
  }

  ghost function ListedHours(complete: seq<HourBar>, n: nat): set<int>
    requires n <= |complete|
  {
    set k | 0 <= k < n :: complete[k].hour
  }

  /** Every complete hour is the summary of its at least 55 bars; the hours increase. */
  lemma {:induction false} CompleteAreSummaries(frame: seq<Bar>)
    requires Sorted(frame)
    ensures HoursIncrease(Complete(Hourly(frame)))
    ensures forall i :: 0 <= i < |Complete(Hourly(frame))| ==>
      IsSummary(frame, Complete(Hourly(frame))[i]) && Complete(Hourly(frame))[i].count >= COMPLETE_HOUR_BARS
  {
    HourlyIsGrouped(frame);
    CompleteKeepsOrder(Hourly(frame));
    forall i | 0 <= i < |Complete(Hourly(frame))|
      ensures IsSummary(frame, Complete(Hourly(frame))[i]) && Complete(Hourly(frame))[i].count >= COMPLETE_HOUR_BARS
    {
      assert Complete(Hourly(frame))[i] in Complete(Hourly(frame));
    }
  }

  /** An hour with 55 bars has its group among the complete ones. */
  lemma {:induction false} GroupOfHour(frame: seq<Bar>, h: int)
    requires Sorted(frame) && |BarsOf(frame, h)| >= COMPLETE_HOUR_BARS
    ensures HasHour(Complete(Hourly(frame)), h)
  {
    var hours := Hourly(frame);
    HourlyIsGrouped(frame);
    CompleteKeepsOrder(hours);
    var i :| 0 <= i < |hours| && hours[i].hour == h;
    assert IsSummary(frame, hours[i]);
    assert hours[i] in Complete(hours);
    var k :| 0 <= k < |Complete(hours)| && Complete(hours)[k] == hours[i];
  }

  /** These are the hours of the frame that have at least 55 bars, in order. */
  ghost predicate ListsComplete(frame: seq<Bar>, complete: seq<HourBar>) {
    && HoursIncrease(complete)
    && (forall i :: 0 <= i < |complete| ==> |BarsOf(frame, complete[i].hour)| >= COMPLETE_HOUR_BARS)
    && (forall h :: |BarsOf(frame, h)| >= COMPLETE_HOUR_BARS ==> HasHour(complete, h))
  }

  lemma {:induction false} CompleteIsListed(frame: seq<Bar>)
    requires Sorted(frame)
    ensures ListsComplete(frame, Complete(Hourly(frame)))
  {
    CompleteAreSummaries(frame);
    forall h | |BarsOf(frame, h)| >= COMPLETE_HOUR_BARS
      ensures HasHour(Complete(Hourly(frame)), h)
    {
      GroupOfHour(frame, h);
    }
  }

  lemma {:induction false} InCompleteHours(frame: seq<Bar>, h: int, hour: int)
    ensures h in CompleteHours(frame, hour) <==> h <= hour && |BarsOf(frame, h)| >= COMPLETE_HOUR_BARS
  {
    if |BarsOf(frame, h)| >= COMPLETE_HOUR_BARS {
      BarsOfMember(frame, h, 0);
    }
  }

  lemma {:induction false} CompleteHoursAreListed(frame: seq<Bar>, complete: seq<HourBar>, i: nat)
    requires ListsComplete(frame, complete) && i < |complete|
    ensures |CompleteHours(frame, complete[i].hour)| == i + 1
  {
    HoursUpTo(complete, i + 1);
    forall h
      ensures h in ListedHours(complete, i + 1) <==> h in CompleteHours(frame, complete[i].hour)
    {
      InCompleteHours(frame, h, complete[i].hour);
      ListedIff(frame, complete, i, h);
    }
    assert ListedHours(complete, i + 1) == CompleteHours(frame, complete[i].hour);
  }

  lemma {:induction false} ListedIff(frame: seq<Bar>, complete: seq<HourBar>, i: nat, h: int)
    requires ListsComplete(frame, complete) && i < |complete|
    ensures h in ListedHours(complete, i + 1) <==>
      h <= complete[i].hour && |BarsOf(frame, h)| >= COMPLETE_HOUR_BARS
  {
    if h <= complete[i].hour && |BarsOf(frame, h)| >= COMPLETE_HOUR_BARS {
      assert HasHour(complete, h);
      var k :| 0 <= k < |complete| && complete[k].hour == h;
    }
  }

  /** An hour's bars have an ATR exactly when the hour before has 55 bars and ends 24 complete hours. */
  lemma {:induction false} AtrExistsIff(frame: seq<Bar>, hour: int)
    requires Sorted(frame)
    ensures AtrFor(frame, hour).Some? <==> |BarsOf(frame, hour - 1)| >= 55 && |CompleteHours(frame, hour - 1)| >= 24
  {
    CompleteIsListed(frame);
    AtrAmongIff(frame, Complete(Hourly(frame)), hour);
  }

  lemma {:induction false} AtrAmongIff(frame: seq<Bar>, complete: seq<HourBar>, hour: int)
    requires ListsComplete(frame, complete)
    ensures AtrAmong(complete, hour).Some? <==>
      |BarsOf(frame, hour - 1)| >= COMPLETE_HOUR_BARS && |CompleteHours(frame, hour - 1)| >= ATR_HOURS
  {
    FindFinds(complete, hour - 1);
    match Find(complete, hour - 1)
    case None =>
      assert !HasHour(complete, hour - 1);
    case Some(i) =>
      CompleteHoursAreListed(frame, complete, i);
  }

  ghost predicate LowsBelowHighs(frame: seq<Bar>) {
    forall b :: b in frame ==> b.low <= b.high
  }

  lemma {:induction false} SummaryHasRange(frame: seq<Bar>, g: HourBar)
    requires LowsBelowHighs(frame) && IsSummary(frame, g)
    ensures g.low <= g.high
  {
    var bars := BarsOf(frame, g.hour);
    BarsOfMember(frame, g.hour, 0);
    SummaryBounds(bars);
    assert bars[0].low <= bars[0].high;
  }

  lemma {:induction false} RangeIsNonNegative(complete: seq<HourBar>, i: nat)
    requires i < |complete| && complete[i].low <= complete[i].high
    ensures TrueRange(complete, i) >= 0.0
  {
  }

  /** Bars whose low never exceeds their high give a non-negative ATR. */
  lemma {:induction false} AtrIsNonNegative(frame: seq<Bar>, hour: int)
    requires Sorted(frame) && LowsBelowHighs(frame)
    ensures AtrFor(frame, hour).Some? ==> AtrFor(frame, hour).value >= 0.0
  {
    var complete := Complete(Hourly(frame));
    CompleteAreSummaries(frame);
    forall i | 0 <= i < |complete|
      ensures TrueRange(complete, i) >= 0.0
    {
      SummaryHasRange(frame, complete[i]);
      RangeIsNonNegative(complete, i);
    }
    match Find(complete, hour - 1)
    case None =>
    case Some(i) =>
      if i + 1 >= ATR_HOURS {
        SumIsNonNegative(complete, i + 1 - ATR_HOURS, i + 1);
      }
  }

  lemma {:induction false} SumIsNonNegative(complete: seq<HourBar>, lo: nat, hi: nat)
    requires lo <= hi <= |complete| && forall i :: lo <= i < hi ==> TrueRange(complete, i) >= 0.0
    ensures SumRanges(complete, lo, hi) >= 0.0
    decreases hi - lo
  {
    if lo < hi {
      SumIsNonNegative(complete, lo, hi - 1);
    }
  }

  /** `x` added up `n` times. */
  ghost function Scaled(n: nat, x: real): real {
    if n == 0 then 0.0 else Scaled(n - 1, x) + x
  }

  lemma {:induction false} ScaledIsProduct(n: nat, x: real)
    ensures Scaled(n, x) == n as real * x
  {
    if n > 0 {
      ScaledIsProduct(n - 1, x);
      assert n as real * x == (n - 1) as real * x + x;
    }
  }

  lemma {:induction false} SumBetween(complete: seq<HourBar>, lo: nat, hi: nat, low: real, high: real)
    requires lo <= hi <= |complete| && forall i :: lo <= i < hi ==> low <= TrueRange(complete, i) <= high
    ensures Scaled(hi - lo, low) <= SumRanges(complete, lo, hi) <= Scaled(hi - lo, high)
    decreases hi - lo
  {
    if lo < hi {
      SumBetween(complete, lo, hi - 1, low, high);
    }
  }

  /** An ATR is a mean: it lies between any bounds on its 24 true ranges. */
  lemma {:induction false} AtrBetweenRanges(complete: seq<HourBar>, i: nat, low: real, high: real)
    requires ATR_HOURS <= i + 1 <= |complete|
    requires forall k :: i + 1 - ATR_HOURS <= k <= i ==> low <= TrueRange(complete, k) <= high
    ensures RollingAtr(complete, i).Some? && low <= RollingAtr(complete, i).value <= high
  {
    SumBetween(complete, i + 1 - ATR_HOURS, i + 1, low, high);
    ScaledIsProduct(ATR_HOURS, low);
    ScaledIsProduct(ATR_HOURS, high);
    var sum := SumRanges(complete, i + 1 - ATR_HOURS, i + 1);
    assert ATR_HOURS as real == 24.0;
    assert 24.0 * low <= sum <= 24.0 * high;
  }

  /** The true range is the span of the hour's range together with the previous complete hour's close. */
  lemma {:induction false} TrueRangeIsSpan(complete: seq<HourBar>, i: nat)
    requires i < |complete| && complete[i].low <= complete[i].high
    ensures TrueRange(complete, i) ==
      if i == 0 then complete[i].high - complete[i].low
      else Max(complete[i].high, complete[i - 1].close) - Min(complete[i].low, complete[i - 1].close)
  {
  }

  // ----- the window of 24 hours

  lemma {:induction false} SumSplitsFirst(complete: seq<HourBar>, lo: nat, hi: nat)
    requires lo < hi <= |complete|
    ensures SumRanges(complete, lo, hi) == TrueRange(complete, lo) + SumRanges(complete, lo + 1, hi)
    decreases hi - lo
  {
    if lo + 1 < hi {
      SumSplitsFirst(complete, lo, hi - 1);
    }
  }

  /** From one complete hour to the next the window gains one true range and loses the one 24 hours back. */
  lemma {:induction false} WindowSlides(complete: seq<HourBar>, i: nat)
    requires 23 <= i && i + 1 < |complete|
    ensures RollingAtr(complete, i).Some? && RollingAtr(complete, i + 1).Some?
    ensures 24.0 * (RollingAtr(complete, i + 1).value - RollingAtr(complete, i).value) ==
      TrueRange(complete, i + 1) - TrueRange(complete, i - 23)
  {
    SumSplitsFirst(complete, i - 23, i + 1);
  }

  lemma {:induction false} FindAt(complete: seq<HourBar>, i: nat)
    requires HoursIncrease(complete) && i < |complete|
    ensures Find(complete, complete[i].hour) == Some(i)
  {
    FindFinds(complete, complete[i].hour);
    assert complete[i] in complete;
    var k := Find(complete, complete[i].hour).value;
    assert complete[k].hour == complete[i].hour;
  }

  lemma {:induction false} AmongReadsHourBefore(complete: seq<HourBar>, hour: int, i: nat)
    requires HoursIncrease(complete) && i < |complete| && complete[i].hour == hour - 1
    ensures AtrAmong(complete, hour) == RollingAtr(complete, i)
  {
    FindAt(complete, i);
  }

  /** A bar is given the rolling value of the complete hour just before its own. */
  lemma {:induction false} BarReadsHourBefore(frame: seq<Bar>, b: nat, i: nat)
    requires Sorted(frame) && b < |frame| && i < |Complete(Hourly(frame))|
    requires Complete(Hourly(frame))[i].hour == frame[b].minute / 60 - 1
    ensures HourlyAtr24(frame)[b] == RollingAtr(Complete(Hourly(frame)), i)
  {
    CompleteAreSummaries(frame);
    AmongReadsHourBefore(Complete(Hourly(frame)), HourOf(frame[b]), i);
  }

  /** The column itself: over two successive complete hours it moves by a 24th of the range gained less the one lost. */
  lemma {:induction false} AtrSlides(frame: seq<Bar>, b: nat, c: nat, i: nat)
    requires Sorted(frame) && b < |frame| && c < |frame| && 23 <= i && i + 1 < |Complete(Hourly(frame))|
    requires Complete(Hourly(frame))[i].hour == frame[b].minute / 60 - 1
    requires Complete(Hourly(frame))[i + 1].hour == frame[c].minute / 60 - 1
    ensures HourlyAtr24(frame)[b].Some? && HourlyAtr24(frame)[c].Some?
    ensures 24.0 * (HourlyAtr24(frame)[c].value - HourlyAtr24(frame)[b].value) ==
      TrueRange(Complete(Hourly(frame)), i + 1) - TrueRange(Complete(Hourly(frame)), i - 23)
  {
    BarReadsHourBefore(frame, b, i);
    BarReadsHourBefore(frame, c, i + 1);
    WindowSlides(Complete(Hourly(frame)), i);
  }

  // ----- one complete hour, said of the frame itself

  /** The rows of one clock hour. */
  ghost function RowsOf(frame: seq<Bar>, hour: int): set<nat> {
    set k: nat | k < |frame| && frame[k].minute / 60 == hour
  }

  /** Its high and low are the extremes of its rows, its close that of its last row, its count their number. */
  ghost predicate IsHourOf(frame: seq<Bar>, g: HourBar) {
    && (forall k :: k in RowsOf(frame, g.hour) ==> g.low <= frame[k].low && frame[k].high <= g.high)
    && (exists k :: k in RowsOf(frame, g.hour) && frame[k].high == g.high)
    && (exists k :: k in RowsOf(frame, g.hour) && frame[k].low == g.low)
    && (exists k :: k in RowsOf(frame, g.hour) && frame[k].close == g.close &&
          forall j :: j in RowsOf(frame, g.hour) ==> j <= k)
    && g.count == |RowsOf(frame, g.hour)|
  }

  lemma {:induction false} RowsOfAppend(front: seq<Bar>, bar: Bar, hour: int)
    ensures RowsOf(front + [bar], hour) == RowsOf(front, hour) + if HourOf(bar) == hour then {|front|} else {}
  {
    assert forall k: nat :: k < |front| ==> (front + [bar])[k] == front[k];
    assert (front + [bar])[|front|] == bar;
  }

  lemma {:induction false} RowCount(frame: seq<Bar>, hour: int)
    ensures |BarsOf(frame, hour)| == |RowsOf(frame, hour)|
  {
    if frame != [] {
      var front, bar := frame[..|frame| - 1], frame[|frame| - 1];
      RowCount(front, hour);
      assert frame == front + [bar];
      RowsOfAppend(front, bar, hour);
      assert |front| !in RowsOf(front, hour);
    }
  }

  lemma {:induction false} RowIsBar(frame: seq<Bar>, hour: int, k: nat)
    requires k in RowsOf(frame, hour)
    ensures frame[k] in BarsOf(frame, hour)
  {
    var front, bar := frame[..|frame| - 1], frame[|frame| - 1];
    if k < |front| {
      assert front[k] == frame[k];
      RowIsBar(front, hour, k);
    }
  }

  lemma {:induction false} BarHasRow(frame: seq<Bar>, hour: int, i: nat) returns (k: nat)
    requires i < |BarsOf(frame, hour)|
    ensures k in RowsOf(frame, hour) && frame[k] == BarsOf(frame, hour)[i]
  {
    var front, bar := frame[..|frame| - 1], frame[|frame| - 1];
    if i < |BarsOf(front, hour)| {
      k := BarHasRow(front, hour, i);
    } else {
      k := |front|;
    }
  }

  lemma {:induction false} LastBarHasLastRow(frame: seq<Bar>, hour: int) returns (k: nat)
    requires BarsOf(frame, hour) != []
    ensures k in RowsOf(frame, hour) && frame[k] == BarsOf(frame, hour)[|BarsOf(frame, hour)| - 1]
    ensures forall j :: j in RowsOf(frame, hour) ==> j <= k
  {
    var front, bar := frame[..|frame| - 1], frame[|frame| - 1];
    if HourOf(bar) == hour {
      k := |front|;
    } else {
      k := LastBarHasLastRow(front, hour);
      forall j | j in RowsOf(frame, hour)
        ensures j <= k
      {
        assert j != |front|;
        assert j in RowsOf(front, hour);
      }
    }
  }

  lemma {:induction false} SummaryIsHourOf(frame: seq<Bar>, g: HourBar)
    requires IsSummary(frame, g)
    ensures IsHourOf(frame, g)
  {
    var bars := BarsOf(frame, g.hour);
    RowCount(frame, g.hour);
    SummaryBounds(bars);
    var i :| 0 <= i < |bars| && bars[i].high == g.high;
    var j :| 0 <= j < |bars| && bars[j].low == g.low;
    var highest := BarHasRow(frame, g.hour, i);
    var lowest := BarHasRow(frame, g.hour, j);
    var last := LastBarHasLastRow(frame, g.hour);
    forall k | k in RowsOf(frame, g.hour)
      ensures g.low <= frame[k].low && frame[k].high <= g.high
    {
      RowIsBar(frame, g.hour, k);
      var n :| 0 <= n < |bars| && bars[n] == frame[k];
    }
  }

  /** Every hour the ATR is computed from is an hour of the frame with at least 55 rows, in increasing order. */
  lemma {:induction false} CompleteHoursAreHours(frame: seq<Bar>)
    requires Sorted(frame)
    ensures HoursIncrease(Complete(Hourly(frame)))
    ensures forall i :: 0 <= i < |Complete(Hourly(frame))| ==>
      IsHourOf(frame, Complete(Hourly(frame))[i]) && Complete(Hourly(frame))[i].count >= 55
    ensures forall h :: |RowsOf(frame, h)| >= 55 ==> HasHour(Complete(Hourly(frame)), h)
  {
    CompleteAreSummaries(frame);
    forall i | 0 <= i < |Complete(Hourly(frame))|
      ensures IsHourOf(frame, Complete(Hourly(frame))[i])
    {
      SummaryIsHourOf(frame, Complete(Hourly(frame))[i]);
    }
    forall h | |RowsOf(frame, h)| >= 55
      ensures HasHour(Complete(Hourly(frame)), h)
    {
      RowCount(frame, h);
      GroupOfHour(frame, h);
    }
  }
}
