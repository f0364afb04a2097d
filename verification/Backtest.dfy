/** The pieces put together on one frame of M1 bars: causality and the cost of a spread, end to end. */
module Backtest {
  import opened Wrappers
  import opened ExitEngine
  import opened HourlyAtr
  import Simulators
  import SimulatorLaws
  import Causality

  function MinutesOf(frame: seq<Bar>): (minutes: seq<int>)
    ensures |minutes| == |frame|
  {
    seq(|frame|, i requires 0 <= i < |frame| => frame[i].minute)
  }

  /** The price faces of a frame and its ASK closes. */
  function FacesOf(frame: seq<Bar>, mode: Mode, ask: seq<real>): (faces: PriceFaces)
    requires |ask| == |frame|
    ensures faces.Shaped() && |faces.bidClose| == |frame|
  {
    PriceFaces(
      mode,
      seq(|frame|, i requires 0 <= i < |frame| => frame[i].close),
      seq(|frame|, i requires 0 <= i < |frame| => frame[i].high),
      seq(|frame|, i requires 0 <= i < |frame| => frame[i].low),
      ask)
  }

  // ----- causality

  lemma {:induction false} BeforeOfPrefix(frame: seq<Bar>, n: nat, hour: int)
    requires Sorted(frame) && 0 < n <= |frame| && HourOf(frame[n - 1]) >= hour
    ensures Before(frame, hour) == Before(frame[..n], hour)
    decreases |frame|
  {
    if n == |frame| {
      assert frame[..n] == frame;
    } else {
      var front, bar := frame[..|frame| - 1], frame[|frame| - 1];
      assert frame[n - 1].minute < bar.minute;
      BeforeOfPrefix(front, n, hour);
      assert front[..n] == frame[..n];
      assert Before(frame, hour) == Before(front, hour);
    }
  }

  /** The ATR column of the first rows is the first rows of the ATR column. */
  lemma {:induction false} AtrIsCausal(frame: seq<Bar>, n: nat)
    requires Sorted(frame) && n <= |frame|
    ensures HourlyAtr24(frame[..n]) == HourlyAtr24(frame)[..n]
  {
    forall i | 0 <= i < n
      ensures HourlyAtr24(frame[..n])[i] == HourlyAtr24(frame)[i]
    {
      var hour := HourOf(frame[i]);
      assert frame[i].minute <= frame[n - 1].minute;
      BeforeOfPrefix(frame, n, hour);
      NoLookAhead(frame[..n], frame, i, i);
    }
  }

  /** What a simulator is given of a frame: its prices, its own ATR column, its minutes, and signals. */
  function FeedOf(frame: seq<Bar>, mode: Mode, ask: seq<real>, signals: seq<Signal>): Causality.Feed
    requires |ask| == |frame|
  {
    Causality.Feed(FacesOf(frame, mode, ask), HourlyAtr24(frame), MinutesOf(frame), signals)
  }

  /** Signals in order, at rows of the frame that have an ATR. */
  ghost predicate SignalsFit(frame: seq<Bar>, signals: seq<Signal>) {
    SimulatorLaws.RowsIncrease(signals) && Simulators.AtrKnown(signals, HourlyAtr24(frame), |frame|)
  }

  /** `earlier` are the signals of the first `n` rows. */
  ghost predicate SignalsBefore(signals: seq<Signal>, earlier: seq<Signal>, n: nat) {
    && earlier <= signals
    && (forall i :: 0 <= i < |earlier| ==> earlier[i].row < n)
    && (forall i :: |earlier| <= i < |signals| ==> signals[i].row >= n)
  }

  /** The first `n` bars, with the ATR they give, are continued by the whole frame with its own. */
  lemma {:induction false} FrameContinues(
    frame: seq<Bar>, mode: Mode, ask: seq<real>, n: nat, signals: seq<Signal>, earlier: seq<Signal>)
    requires Sorted(frame) && |ask| == |frame| && n <= |frame|
    requires SignalsFit(frame, signals) && SignalsBefore(signals, earlier, n)
    ensures FeedOf(frame, mode, ask, signals).Valid() && FeedOf(frame[..n], mode, ask[..n], earlier).Valid()
    ensures FeedOf(frame[..n], mode, ask[..n], earlier).Continues(FeedOf(frame, mode, ask, signals))
  {
    AtrIsCausal(frame, n);
    var later, feed := FeedOf(frame, mode, ask, signals), FeedOf(frame[..n], mode, ask[..n], earlier);
    forall i | 0 <= i < |earlier|
      ensures earlier[i].row < n && feed.atr[earlier[i].row].Some?
    {
      assert earlier[i] == signals[i];
    }
    assert later.minutes[..n] == feed.minutes && later.atr[..n] == feed.atr;
  }

  /**
    What a backtest of the first `n` bars says about the backtest of the whole history, ATR included: its
    trades before the first open signal begin both lists; and its list begins the whole one exactly when it
    holds nothing after the first open signal that the history closes.
   */
  lemma {:induction false} BacktestIsCausal(
    sim: Causality.Simulator, frame: seq<Bar>, mode: Mode, ask: seq<real>, n: nat, signals: seq<Signal>,
    earlier: seq<Signal>)
    requires sim.WellFormed() && Sorted(frame) && |ask| == |frame| && n <= |frame|
    requires SignalsFit(frame, signals) && SignalsBefore(signals, earlier, n)
    ensures FeedOf(frame, mode, ask, signals).Valid() && FeedOf(frame[..n], mode, ask[..n], earlier).Valid()
    ensures
      var feed, whole := FeedOf(frame[..n], mode, ask[..n], earlier), FeedOf(frame, mode, ask, signals);
      var attempts := Causality.Attempts(sim, feed);
      var k := Causality.FirstTaken(attempts, Causality.Attempts(sim, whole), earlier, -1);
      && Causality.SettledTrades(sim, feed) <= Causality.Trades(sim, feed)
      && Causality.SettledTrades(sim, feed) <= Causality.Trades(sim, whole)
      && (Causality.Trades(sim, feed) <= Causality.Trades(sim, whole) <==>
            Causality.Trades(sim, feed) == Greedy(attempts[..k], -1))
  {
    FrameContinues(frame, mode, ask, n, signals, earlier);
    var feed, whole := FeedOf(frame[..n], mode, ask[..n], earlier), FeedOf(frame, mode, ask, signals);
    Causality.SettledTradesStay(sim, feed, whole);
    Causality.ListSurvivesIff(sim, feed, whole);
  }

  // ----- the spread

  /** On any frame of well-formed bars with ASK at or above BID, the replay never gains from the spread. */
  lemma {:induction false} SpreadNeverHelpsOnFrame(frame: seq<Bar>, ask: seq<real>, timeout: int, s: Signal)
    requires Sorted(frame) && |ask| == |frame| && s.row < |frame| && HourlyAtr24(frame)[s.row].Some?
    requires forall b :: b in frame ==> b.low <= b.close <= b.high
    requires forall i :: 0 <= i < |frame| ==> frame[i].close <= ask[i]
    ensures
      var bidAsk := Simulators.ReplayAttempt(
        FacesOf(frame, BidAskM1, ask), HourlyAtr24(frame), MinutesOf(frame), timeout, s);
      var legacy := Simulators.ReplayAttempt(
        FacesOf(frame, LegacyBidOnly, ask), HourlyAtr24(frame), MinutesOf(frame), timeout, s);
      bidAsk.Some? && legacy.Some? ==> bidAsk.value.rawPips <= legacy.value.rawPips
  {
    var faces := FacesOf(frame, BidAskM1, ask);
    assert forall i :: 0 <= i < |frame| ==> frame[i] in frame;
    AtrIsNonNegative(frame, HourOf(frame[s.row]));
    SimulatorLaws.SpreadNeverHelps(faces, HourlyAtr24(frame), MinutesOf(frame), timeout, s);
    assert faces.(mode := LegacyBidOnly) == FacesOf(frame, LegacyBidOnly, ask);
  }
}
