/** The common_R grid: barrier distances, bounds on every trade, widening, and the stop-first tie. */
module GridLaws {
  import opened Wrappers
  import opened ExitEngine
  import opened Simulators
  import PathLaws
  import SimulatorLaws
  import Rounding

  lemma {:induction false} CommonRWithinClamp(atr: real)
    ensures COMMON_R_FLOOR_PIPS <= CommonRPips(atr).pips <= COMMON_R_CAP_PIPS
    ensures !(CommonRPips(atr).floorClamped && CommonRPips(atr).capClamped)
    ensures !CommonRPips(atr).floorClamped && !CommonRPips(atr).capClamped <==>
      COMMON_R_FLOOR_PIPS <= atr / PIP <= COMMON_R_CAP_PIPS
    ensures !CommonRPips(atr).floorClamped && !CommonRPips(atr).capClamped ==> CommonRPips(atr).pips == atr / PIP
  {
  }

  function Distance(x: real, y: real): real {
    if x < y then y - x else x - y
  }

  /** common_R is the point of [3.75, 20 / 1.2] pips nearest to the ATR; each flag says on which side it was held. */
  lemma {:induction false} CommonRIsNearest(atr: real, x: real)
    requires 3.75 <= x <= 20.0 / 1.2
    ensures 3.75 <= CommonRPips(atr).pips <= 20.0 / 1.2
    ensures Distance(CommonRPips(atr).pips, atr / 0.01) <= Distance(x, atr / 0.01)
    ensures CommonRPips(atr).floorClamped <==> atr / 0.01 < 3.75
    ensures CommonRPips(atr).capClamped <==> atr / 0.01 > 20.0 / 1.2
  {
    assert COMMON_R_FLOOR_PIPS == 3.75 && COMMON_R_CAP_PIPS == 20.0 / 1.2;
  }

  /** A larger ATR never gives a smaller common_R. */
  lemma {:induction false} CommonRGrows(atr: real, larger: real)
    requires atr <= larger
    ensures CommonRPips(atr).pips <= CommonRPips(larger).pips
  {
    assert atr / PIP <= larger / PIP;
  }

  /** Whatever the ATR, a registered stop lies 3 to 20 pips away, and its multiple leaves the target alone. */
  lemma {:induction false} RegisteredDistances(c: A1Candidate, slR: real, atr: real)
    requires Registered(c)
    ensures 3.0 * PIP <= SlDistance(c, atr) <= 20.0 * PIP
    ensures 3.75 * PIP <= TpDistance(c, atr) <= 33.34 * PIP
    ensures TpDistance(c.(slR := slR), atr) == TpDistance(c, atr)
  {
    CommonRWithinClamp(atr);
  }

  lemma {:induction false} RegisteredBarriers(c: A1Candidate, side: Side, entry: real, atr: real)
    requires Registered(c)
    ensures var b := A1Barriers(c, side, entry, atr);
      && b.Barriers? && -20.05 * PIP <= b.stop < 0.0 < b.target <= 33.39 * PIP
      && -SlDistance(c, atr) - 0.05 * PIP <= b.stop <= -SlDistance(c, atr) + 0.05 * PIP
      && TpDistance(c, atr) - 0.05 * PIP <= b.target <= TpDistance(c, atr) + 0.05 * PIP
  {
    RegisteredDistances(c, c.slR, atr);
    Rounding.QuantizeLaws(entry - Signed(side, SlDistance(c, atr)), 0.0, 0);
    Rounding.QuantizeLaws(entry + Signed(side, TpDistance(c, atr)), 0.0, 0);
  }

  /** A walk that closes on its entry row did so because the deadline passed before the first bar. */
  lemma {:induction false} EntryRowExit(path: Path, b: Barriers, deadline: int, k: nat)
    requires path.Shaped() && 0 < k <= |path.minutes|
    ensures var exit := FirstExit(path, b, deadline, k);
      exit.Some? && exit.value.row == k - 1 ==>
        k < |path.minutes| && Expired(path, deadline, k) && exit.value.gain == path.close[k - 1]
    decreases |path.minutes| - k
  {
    if k < |path.minutes| && !Ends(path, b, deadline, k) {
      FirstExitInRange(path, b, deadline, k + 1);
    }
  }

  /**
    Every grid trade earns between its quantised stop and its quantised target, hence between -20.05
    and 33.39 pips -- except a zero-row holding, which pays exactly the spread (nothing in LEGACY mode).
   */
  lemma {:induction false} GridTradeIsBounded(
    c: A1Candidate, faces: PriceFaces, atr: seq<Option<real>>, minutes: seq<int>, s: Signal)
    requires Registered(c) && Framed(faces, minutes) && faces.Bounded()
    requires s.row < |minutes| == |atr| && atr[s.row].Some?
    ensures var b := A1Barriers(c, s.side, faces.Entry(s.row, s.side), atr[s.row].value);
      var attempt := A1Attempt(c, faces, atr, minutes, s);
      && -20.05 * PIP <= b.stop < 0.0 < b.target <= 33.39 * PIP
      && (attempt.Some? && (attempt.value.exitRow > s.row || faces.mode.LegacyBidOnly?) ==>
            && b.stop / PIP <= attempt.value.rawPips <= b.target / PIP
            && -20.05 <= attempt.value.rawPips <= 33.39)
      && (attempt.Some? && attempt.value.exitRow == s.row ==>
            attempt.value.rawPips ==
              if faces.mode.LegacyBidOnly? then 0.0 else -(faces.askClose[s.row] - faces.bidClose[s.row]) / PIP)
  {
    var entry := faces.Entry(s.row, s.side);
    var path := PathOf(faces, minutes, s.side, entry);
    var b := A1Barriers(c, s.side, entry, atr[s.row].value);
    RegisteredBarriers(c, s.side, entry, atr[s.row].value);
    PathLaws.PathOfIsBounded(faces, minutes, s.side, entry);
    EntryRowClose(faces, minutes, s);
    BoundedExit(path, b, minutes[s.row] + A1_MAX_HOLD_MINUTES, s.row + 1);
    assert A1Exit(c, faces, atr[s.row].value, minutes, s) ==
      FirstExit(path, b, minutes[s.row] + A1_MAX_HOLD_MINUTES, s.row + 1);
  }

  /** Closing at once on the entry row pays the spread. */
  lemma {:induction false} EntryRowClose(faces: PriceFaces, minutes: seq<int>, s: Signal)
    requires Framed(faces, minutes) && s.row < |minutes|
    ensures PathOf(faces, minutes, s.side, faces.Entry(s.row, s.side)).close[s.row] ==
      if faces.mode.LegacyBidOnly? then 0.0 else -(faces.askClose[s.row] - faces.bidClose[s.row])
  {
  }

  /** A walk that leaves its entry row, or that enters and exits on one price, gains between its barriers. */
  lemma {:induction false} BoundedExit(path: Path, b: Barriers, deadline: int, k: nat)
    requires path.Shaped() && PathLaws.Bounded(path) && 0 < k <= |path.minutes|
    requires b.Barriers? && b.stop < 0.0 < b.target && -20.05 * PIP <= b.stop && b.target <= 33.39 * PIP
    ensures var exit := FirstExit(path, b, deadline, k);
      && (exit.Some? && exit.value.row == k - 1 ==> exit.value.gain == path.close[k - 1])
      && (exit.Some? && (exit.value.row != k - 1 || path.close[k - 1] == 0.0) ==>
            b.stop / PIP <= exit.value.gain / PIP <= b.target / PIP && -20.05 <= exit.value.gain / PIP <= 33.39)
  {
    EntryRowExit(path, b, deadline, k);
    var exit := FirstExit(path, b, deadline, k);
    if exit.Some? && exit.value.row != k - 1 {
      assert !(k < |path.minutes| && Expired(path, deadline, k));
      PathLaws.GainWithinBarriers(path, b, deadline, k);
      InPips(exit.value.gain, b);
    } else if exit.Some? && path.close[k - 1] == 0.0 {
      InPips(exit.value.gain, b);
    }
  }

  /** A gain between the barriers, in pips. */
  lemma {:induction false} InPips(gain: real, b: Barriers)
    requires b.Barriers? && b.stop <= gain <= b.target && -20.05 * PIP <= b.stop && b.target <= 33.39 * PIP
    ensures b.stop / PIP <= gain / PIP <= b.target / PIP
    ensures -20.05 <= gain / PIP <= 33.39
  {
  }

  lemma {:induction false} DistancesGrow(c: A1Candidate, wide: A1Candidate, atr: real)
    requires c.slR <= wide.slR && c.tpR <= wide.tpR
    ensures SlDistance(c, atr) <= SlDistance(wide, atr)
    ensures TpDistance(c, atr) <= TpDistance(wide, atr)
  {
    CommonRWithinClamp(atr);
    var r := CommonRPips(atr).pips;
    assert (wide.slR - c.slR) * r >= 0.0 && (wide.tpR - c.tpR) * r >= 0.0;
  }

  /** Under any monotone rounding, levels further from the entry stay no nearer. */
  lemma {:induction false} RoundedLevelsWiden(
    round: real -> real, side: Side, entry: real, sl: real, wideSl: real, tp: real, wideTp: real)
    requires forall x, y :: x <= y ==> round(x) <= round(y)
    requires sl <= wideSl && tp <= wideTp
    ensures
      var b := BarriersAt(side, entry, round(entry - Signed(side, sl)), round(entry + Signed(side, tp)));
      var w := BarriersAt(side, entry, round(entry - Signed(side, wideSl)), round(entry + Signed(side, wideTp)));
      w.stop <= b.stop && b.target <= w.target
  {
  }

  lemma {:induction false} LevelsWiden(side: Side, entry: real, sl: real, wideSl: real, tp: real, wideTp: real)
    requires sl <= wideSl && tp <= wideTp
    ensures var b, w := QuantizedBarriers(side, entry, sl, tp), QuantizedBarriers(side, entry, wideSl, wideTp);
      w.stop <= b.stop && b.target <= w.target
  {
    forall x, y | x <= y
      ensures Rounding.Quantize(x) <= Rounding.Quantize(y)
    {
      Rounding.QuantizeMonotone(x, y);
    }
    RoundedLevelsWiden(Rounding.Quantize, side, entry, sl, wideSl, tp, wideTp);
  }

  lemma {:induction false} BarriersWiden(c: A1Candidate, wide: A1Candidate, side: Side, entry: real, atr: real)
    requires c.slR <= wide.slR && c.tpR <= wide.tpR
    ensures var b, w := A1Barriers(c, side, entry, atr), A1Barriers(wide, side, entry, atr);
      w.stop <= b.stop && b.target <= w.target
  {
    DistancesGrow(c, wide, atr);
    LevelsWiden(side, entry, SlDistance(c, atr), SlDistance(wide, atr), TpDistance(c, atr), TpDistance(wide, atr));
  }

  /** Widening a grid barrier never exits earlier, and where the widened candidate closes so does this one. */
  lemma {:induction false} WideningNeverExitsEarlier(
    c: A1Candidate, wide: A1Candidate, faces: PriceFaces, atr: seq<Option<real>>, minutes: seq<int>, s: Signal)
    requires c.slR <= wide.slR && c.tpR <= wide.tpR
    requires Framed(faces, minutes) && s.row < |minutes| == |atr| && atr[s.row].Some?
    ensures var narrow, wider := A1Attempt(c, faces, atr, minutes, s), A1Attempt(wide, faces, atr, minutes, s);
      wider.Some? ==> narrow.Some? && narrow.value.exitRow <= wider.value.exitRow
  {
    var a := atr[s.row].value;
    var entry := faces.Entry(s.row, s.side);
    var b, w := A1Barriers(c, s.side, entry, a), A1Barriers(wide, s.side, entry, a);
    BarriersWiden(c, wide, s.side, entry, a);
    PathLaws.WiderNeverEndsEarlier(
      PathOf(faces, minutes, s.side, entry), b, w, minutes[s.row] + A1_MAX_HOLD_MINUTES, s.row + 1);
  }

  /** The grid's stop-first choice against the target-first sensitivity reading. */
  lemma {:induction false} GridStopFirstIsConservative(
    c: A1Candidate, faces: PriceFaces, atr: real, minutes: seq<int>, s: Signal)
    requires Registered(c) && Framed(faces, minutes) && s.row < |minutes|
    ensures var entry := faces.Entry(s.row, s.side);
      var path := PathOf(faces, minutes, s.side, entry);
      var b := A1Barriers(c, s.side, entry, atr);
      var deadline := minutes[s.row] + A1_MAX_HOLD_MINUTES;
      match (A1Exit(c, faces, atr, minutes, s), PathLaws.FirstExitTargetFirst(path, b, deadline, s.row + 1))
      case (None, None) => true
      case (Some(stopFirst), Some(targetFirst)) =>
        && stopFirst.row == targetFirst.row
        && stopFirst.gain <= targetFirst.gain
        && (stopFirst.gain < targetFirst.gain <==> PathLaws.DecidedByDoubleTouch(path, b, deadline, s.row + 1))
      case _ => false
  {
    var entry := faces.Entry(s.row, s.side);
    RegisteredBarriers(c, s.side, entry, atr);
    PathLaws.StopFirstIsConservative(
      PathOf(faces, minutes, s.side, entry), A1Barriers(c, s.side, entry, atr),
      minutes[s.row] + A1_MAX_HOLD_MINUTES, s.row + 1);
  }

  // ----- the spread

  /** The grid's walk and barriers at one signal, in one price mode. */
  function GridWalk(faces: PriceFaces, minutes: seq<int>, s: Signal): Path
    requires Framed(faces, minutes) && s.row < |minutes|
  {
    PathOf(faces, minutes, s.side, faces.Entry(s.row, s.side))
  }

  /** No barrier lies further in favour, seen from its entry, on BID/ASK prices than on BID prices. */
  predicate NoBarrierRaised(bidAsk: Barriers, legacy: Barriers) {
    bidAsk.Barriers? && legacy.Barriers? && bidAsk.stop <= legacy.stop && bidAsk.target <= legacy.target
  }

  /** Seen as prices, the BID/ASK barriers of a BUY lie no lower, and those of a SELL lie where they were. */
  ghost predicate BarriersMove(side: Side, low: real, high: real, bp: Barriers, bq: Barriers, slack: real) {
    && bp.Barriers? && bq.Barriers? && slack >= 0.0
    && bp.stop <= bp.target && bq.stop <= bq.target
    && bp.stop <= bq.stop + slack && bp.target <= bq.target + slack
    && (side.Buy? ==> low + bq.stop <= high + bp.stop && low + bq.target <= high + bp.target)
    && (side.Sell? ==> bp == bq)
  }

  lemma {:induction false} SpreadIsHarder(
    faces: PriceFaces, minutes: seq<int>, s: Signal, bp: Barriers, bq: Barriers, slack: real)
    requires Framed(faces, minutes) && s.row < |minutes| && SimulatorLaws.SpreadsNonNegative(faces)
    requires BarriersMove(s.side, faces.bidClose[s.row], faces.askClose[s.row], bp, bq, slack)
    ensures PathLaws.Harder(
      GridWalk(faces.(mode := BidAskM1), minutes, s), bp,
      GridWalk(faces.(mode := LegacyBidOnly), minutes, s), bq, s.row, slack)
  {
  }

  /** Rounding monotonely, by at most half a slack, a higher entry raises both levels and gains at most the slack. */
  lemma {:induction false} RoundedBarriersMove(
    round: real -> real, side: Side, low: real, high: real, sl: real, tp: real, slack: real)
    requires forall x, y :: x <= y ==> round(x) <= round(y)
    requires forall x :: -slack / 2.0 <= round(x) - x <= slack / 2.0
    requires low <= high && slack >= 0.0
    ensures
      var entry := if side.Buy? then high else low;
      var bp := BarriersAt(side, entry, round(entry - Signed(side, sl)), round(entry + Signed(side, tp)));
      var bq := BarriersAt(side, low, round(low - Signed(side, sl)), round(low + Signed(side, tp)));
      bp.stop <= bp.target && bq.stop <= bq.target ==> BarriersMove(side, low, high, bp, bq, slack)
  {
  }

  lemma {:induction false} QuantizeWithinTick()
    ensures forall x, y :: x <= y ==> Rounding.Quantize(x) <= Rounding.Quantize(y)
    ensures forall x :: -Rounding.TICK_SIZE / 2.0 <= Rounding.Quantize(x) - x <= Rounding.TICK_SIZE / 2.0
  {
    forall x, y | x <= y
      ensures Rounding.Quantize(x) <= Rounding.Quantize(y)
    {
      Rounding.QuantizeMonotone(x, y);
    }
    forall x
      ensures -Rounding.TICK_SIZE / 2.0 <= Rounding.Quantize(x) - x <= Rounding.TICK_SIZE / 2.0
    {
      Rounding.QuantizeLaws(x, 0.0, 0);
    }
  }

  lemma {:induction false} GridBarriersMove(c: A1Candidate, side: Side, low: real, high: real, atr: real)
    requires Registered(c) && low <= high
    ensures var bp := A1Barriers(c, side, if side.Buy? then high else low, atr);
      var bq := A1Barriers(c, side, low, atr);
      BarriersMove(side, low, high, bp, bq, Rounding.TICK_SIZE)
  {
    var entry := if side.Buy? then high else low;
    RegisteredBarriers(c, side, low, atr);
    RegisteredBarriers(c, side, entry, atr);
    QuantizeWithinTick();
    RoundedBarriersMove(
      Rounding.Quantize, side, low, high, SlDistance(c, atr), TpDistance(c, atr), Rounding.TICK_SIZE);
  }

  /** Barriers that move within a slack and not in favour, or not at all, move within no slack. */
  lemma {:induction false} MoveWithoutSlack(side: Side, low: real, high: real, bp: Barriers, bq: Barriers, slack: real)
    requires BarriersMove(side, low, high, bp, bq, slack) && (side.Sell? || NoBarrierRaised(bp, bq))
    ensures BarriersMove(side, low, high, bp, bq, 0.0)
  {
  }

  lemma {:induction false} SpreadExits(
    faces: PriceFaces, minutes: seq<int>, s: Signal, bp: Barriers, bq: Barriers, slack: real)
    requires Framed(faces, minutes) && s.row < |minutes| && faces.Bounded() && SimulatorLaws.SpreadsNonNegative(faces)
    requires BarriersMove(s.side, faces.bidClose[s.row], faces.askClose[s.row], bp, bq, slack)
    ensures var p, q := faces.(mode := BidAskM1), faces.(mode := LegacyBidOnly);
      var deadline := minutes[s.row] + A1_MAX_HOLD_MINUTES;
      var worse := FirstExit(GridWalk(p, minutes, s), bp, deadline, s.row + 1);
      var better := FirstExit(GridWalk(q, minutes, s), bq, deadline, s.row + 1);
      && (worse.Some? && better.Some? ==> worse.value.gain <= better.value.gain + slack)
      && (worse.None? && better.Some? ==> better.value.gain == bq.target)
  {
    var p, q := faces.(mode := BidAskM1), faces.(mode := LegacyBidOnly);
    SpreadIsHarder(faces, minutes, s, bp, bq, slack);
    PathLaws.PathOfIsBounded(p, minutes, s.side, p.Entry(s.row, s.side));
    PathLaws.PathOfIsBounded(q, minutes, s.side, q.Entry(s.row, s.side));
    PathLaws.HarderNeverEndsBetter(
      GridWalk(p, minutes, s), bp, GridWalk(q, minutes, s), bq, minutes[s.row] + A1_MAX_HOLD_MINUTES, s.row + 1, slack);
  }

  /** What `p` pays at most more than `q`. */
  ghost predicate PaysAtMost(worse: Option<Exit>, better: Option<Exit>, slack: real, target: real) {
    && (worse.Some? && better.Some? ==> worse.value.gain <= better.value.gain + slack)
    && (worse.None? && better.Some? ==> better.value.gain == target)
  }

  lemma {:induction false} GridExitsPay(
    c: A1Candidate, faces: PriceFaces, atr: real, minutes: seq<int>, s: Signal, bp: Barriers, bq: Barriers, slack: real)
    requires Framed(faces, minutes) && s.row < |minutes| && faces.Bounded() && SimulatorLaws.SpreadsNonNegative(faces)
    requires bp == A1Barriers(c, s.side, faces.(mode := BidAskM1).Entry(s.row, s.side), atr)
    requires bq == A1Barriers(c, s.side, faces.(mode := LegacyBidOnly).Entry(s.row, s.side), atr)
    requires BarriersMove(s.side, faces.bidClose[s.row], faces.askClose[s.row], bp, bq, slack)
    ensures PaysAtMost(
      A1Exit(c, faces.(mode := BidAskM1), atr, minutes, s), A1Exit(c, faces.(mode := LegacyBidOnly), atr, minutes, s),
      slack, bq.target)
  {
    SpreadExits(faces, minutes, s, bp, bq, slack);
  }

  lemma {:induction false} GridSpreadExits(c: A1Candidate, faces: PriceFaces, atr: real, minutes: seq<int>, s: Signal)
    requires Registered(c) && Framed(faces, minutes) && s.row < |minutes|
    requires faces.Bounded() && SimulatorLaws.SpreadsNonNegative(faces)
    ensures
      var p, q := faces.(mode := BidAskM1), faces.(mode := LegacyBidOnly);
      var bp := A1Barriers(c, s.side, p.Entry(s.row, s.side), atr);
      var bq := A1Barriers(c, s.side, q.Entry(s.row, s.side), atr);
      var worse, better := A1Exit(c, p, atr, minutes, s), A1Exit(c, q, atr, minutes, s);
      && bq.Barriers? && PaysAtMost(worse, better, Rounding.TICK_SIZE, bq.target)
      && (s.side.Sell? || NoBarrierRaised(bp, bq) ==> PaysAtMost(worse, better, 0.0, bq.target))
  {
    var bp := A1Barriers(c, s.side, faces.(mode := BidAskM1).Entry(s.row, s.side), atr);
    var bq := A1Barriers(c, s.side, faces.(mode := LegacyBidOnly).Entry(s.row, s.side), atr);
    GridBarriersMove(c, s.side, faces.bidClose[s.row], faces.askClose[s.row], atr);
    GridExitsPay(c, faces, atr, minutes, s, bp, bq, Rounding.TICK_SIZE);
    if s.side.Sell? || NoBarrierRaised(bp, bq) {
      MoveWithoutSlack(s.side, faces.bidClose[s.row], faces.askClose[s.row], bp, bq, Rounding.TICK_SIZE);
      GridExitsPay(c, faces, atr, minutes, s, bp, bq, 0.0);
    }
  }

  /**
    On the grid a spread can help only through rounding: BID/ASK pips exceed LEGACY pips by at most one tick,
    never for a SELL, and never where rounding moves no barrier in favour.
   */
  lemma {:induction false} GridSpreadHelpsAtMostATick(
    c: A1Candidate, faces: PriceFaces, atr: seq<Option<real>>, minutes: seq<int>, s: Signal)
    requires Registered(c) && Framed(faces, minutes) && s.row < |minutes| == |atr| && atr[s.row].Some?
    requires faces.Bounded() && SimulatorLaws.SpreadsNonNegative(faces)
    ensures
      var p, q := faces.(mode := BidAskM1), faces.(mode := LegacyBidOnly);
      var bidAsk, legacy := A1Attempt(c, p, atr, minutes, s), A1Attempt(c, q, atr, minutes, s);
      var bp := A1Barriers(c, s.side, p.Entry(s.row, s.side), atr[s.row].value);
      var bq := A1Barriers(c, s.side, q.Entry(s.row, s.side), atr[s.row].value);
      && bq.Barriers?
      && (bidAsk.Some? && legacy.Some? ==>
            && bidAsk.value.rawPips <= legacy.value.rawPips + 0.1
            && (s.side.Sell? || NoBarrierRaised(bp, bq) ==> bidAsk.value.rawPips <= legacy.value.rawPips))
      && (bidAsk.None? && legacy.Some? ==> legacy.value.rawPips == bq.target / PIP)
  {
    GridSpreadExits(c, faces, atr[s.row].value, minutes, s);
  }
}
