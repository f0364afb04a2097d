/** Laws of a single walk: bounds, domination, widening, and the stop-first tie. */
module PathLaws {
  import opened Wrappers
  import opened ExitEngine

  /** Each bar's close lies between its worst and its best gain. */
  ghost predicate Bounded(path: Path)
    requires path.Shaped()
  {
    forall k :: 0 <= k < |path.minutes| ==> path.worst[k] <= path.close[k] <= path.best[k]
  }

  lemma {:induction false} PathOfIsBounded(faces: PriceFaces, minutes: seq<int>, side: Side, entry: real)
    requires faces.Shaped() && |minutes| == |faces.bidClose| && faces.Bounded()
    ensures Bounded(PathOf(faces, minutes, side, entry))
  {
  }

  /** Unless the deadline passes before the first bar, a walk ends between its stop and its target. */
  lemma {:induction false} GainWithinBarriers(path: Path, b: Barriers, deadline: int, k: nat)
    requires path.Shaped() && Bounded(path) && 0 < k <= |path.minutes|
    requires b.Barriers? && b.stop <= b.target
    requires k < |path.minutes| && Expired(path, deadline, k) ==> b.stop <= path.close[k - 1] <= b.target
    ensures var exit := FirstExit(path, b, deadline, k); exit.Some? ==> b.stop <= exit.value.gain <= b.target
    decreases |path.minutes| - k
  {
    if k < |path.minutes| && !Ends(path, b, deadline, k) {
      assert path.worst[k] <= path.close[k] <= path.best[k];
      GainWithinBarriers(path, b, deadline, k + 1);
    }
  }

  /** Bar by bar, `p` is nowhere better than `q`, from row `from` on. */
  ghost predicate Dominated(p: Path, q: Path, from: nat)
    requires p.Shaped() && q.Shaped()
  {
    && p.minutes == q.minutes
    && (forall k :: from <= k < |p.minutes| ==>
          p.close[k] <= q.close[k] && p.best[k] <= q.best[k] && p.worst[k] <= q.worst[k])
  }

  /** Where `q` is stopped so is `p`, where `p` reaches its target so does `q`, and `p` pays at most `slack` more. */
  ghost predicate Harder(p: Path, bp: Barriers, q: Path, bq: Barriers, from: nat, slack: real)
    requires p.Shaped() && q.Shaped()
  {
    && p.minutes == q.minutes && bp.Barriers? && bq.Barriers? && slack >= 0.0
    && bp.stop <= bp.target && bq.stop <= bq.target
    && bp.stop <= bq.stop + slack && bp.target <= bq.target + slack
    && (forall k :: from <= k < |p.minutes| ==>
          && p.close[k] <= q.close[k] + slack
          && (StopHit(q, bq, k) ==> StopHit(p, bp, k))
          && (TargetHit(p, bp, k) ==> TargetHit(q, bq, k)))
  }

  /**
    The harder walk ends better by at most the slack, and it can outlast the data only where the other reached
    its target.
   */
  lemma {:induction false} HarderNeverEndsBetter(
    p: Path, bp: Barriers, q: Path, bq: Barriers, deadline: int, k: nat, slack: real)
    requires p.Shaped() && q.Shaped() && Bounded(p) && Bounded(q) && 0 < k <= |p.minutes|
    requires Harder(p, bp, q, bq, k - 1, slack)
    ensures var worse, better := FirstExit(p, bp, deadline, k), FirstExit(q, bq, deadline, k);
      && (worse.Some? && better.Some? ==> worse.value.gain <= better.value.gain + slack)
      && (worse.None? && better.Some? ==> better.value.gain == bq.target)
    decreases |p.minutes| - k
  {
    if k < |p.minutes| && !Expired(p, deadline, k) {
      if StopHit(q, bq, k) {
        assert StopHit(p, bp, k);
      } else if StopHit(p, bp, k) {
        if !Ends(q, bq, deadline, k) {
          assert q.worst[k] <= q.close[k] <= q.best[k];
          GainWithinBarriers(q, bq, deadline, k + 1);
        }
      } else if TargetHit(q, bq, k) {
        if !Ends(p, bp, deadline, k) {
          assert p.worst[k] <= p.close[k] <= p.best[k];
          GainWithinBarriers(p, bp, deadline, k + 1);
        }
      } else {
        assert !TargetHit(p, bp, k);
        HarderNeverEndsBetter(p, bp, q, bq, deadline, k + 1, slack);
      }
    }
  }

  /** Between the same barriers a dominated walk never ends better. */
  lemma {:induction false} DominatedNeverEndsBetter(p: Path, q: Path, b: Barriers, deadline: int, k: nat)
    requires p.Shaped() && q.Shaped() && Bounded(p) && Bounded(q) && 0 < k <= |p.minutes|
    requires Dominated(p, q, k - 1)
    requires b.Barriers? && b.stop <= b.target
    ensures var worse, better := FirstExit(p, b, deadline, k), FirstExit(q, b, deadline, k);
      && (worse.Some? && better.Some? ==> worse.value.gain <= better.value.gain)
      && (worse.None? && better.Some? ==> better.value.gain == b.target)
  {
    HarderNeverEndsBetter(p, b, q, b, deadline, k, 0.0);
  }

  /** Wider barriers never end a walk earlier, and if they end it at all so do the narrower ones. */
  lemma {:induction false} WiderNeverEndsEarlier(path: Path, b: Barriers, wide: Barriers, deadline: int, k: nat)
    requires path.Shaped() && 0 < k <= |path.minutes|
    requires b.Barriers? && wide.Barriers? && wide.stop <= b.stop && b.target <= wide.target
    ensures var narrow, wider := FirstExit(path, b, deadline, k), FirstExit(path, wide, deadline, k);
      && (wider.Some? ==> narrow.Some? && narrow.value.row <= wider.value.row)
      && (wider.Some? ==> k - 1 <= wider.value.row)
    decreases |path.minutes| - k
  {
    if k < |path.minutes| {
      if Ends(path, wide, deadline, k) {
        assert Ends(path, b, deadline, k);
      } else {
        WiderNeverEndsEarlier(path, b, wide, deadline, k + 1);
      }
    }
  }

  /** The sensitivity reading: the target wins a bar that touches both barriers. */
  function FirstExitTargetFirst(path: Path, b: Barriers, deadline: int, k: nat): Option<Exit>
    requires path.Shaped() && 0 < k <= |path.minutes|
    decreases |path.minutes| - k
  {
    if k == |path.minutes| then None
    else if Expired(path, deadline, k) then Some(Exit(k - 1, path.close[k - 1]))
    else if TargetHit(path, b, k) then Some(Exit(k, b.target))
    else if StopHit(path, b, k) then Some(Exit(k, b.stop))
    else FirstExitTargetFirst(path, b, deadline, k + 1)
  }

  /** The bar that decides the walk touches both barriers. */
  ghost predicate DecidedByDoubleTouch(path: Path, b: Barriers, deadline: int, k: nat)
    requires path.Shaped() && 0 < k <= |path.minutes|
  {
    exists j :: k <= j < |path.minutes| && !Expired(path, deadline, j) &&
      StopHit(path, b, j) && TargetHit(path, b, j) &&
      forall i :: k <= i < j ==> !Ends(path, b, deadline, i)
  }

  /** Stop-first is conservative: same row, never a better gain, a worse one exactly on a double touch. */
  lemma {:induction false} StopFirstIsConservative(path: Path, b: Barriers, deadline: int, k: nat)
    requires path.Shaped() && 0 < k <= |path.minutes|
    requires b.Barriers? && b.stop < b.target
    ensures var stopFirst, targetFirst := FirstExit(path, b, deadline, k), FirstExitTargetFirst(path, b, deadline, k);
      match (stopFirst, targetFirst)
      case (None, None) => !DecidedByDoubleTouch(path, b, deadline, k)
      case (Some(s), Some(t)) =>
        && s.row == t.row
        && s.gain <= t.gain
        && (s.gain < t.gain <==> DecidedByDoubleTouch(path, b, deadline, k))
      case _ => false
    decreases |path.minutes| - k
  {
    if k < |path.minutes| {
      if Ends(path, b, deadline, k) {
        if !Expired(path, deadline, k) && StopHit(path, b, k) && TargetHit(path, b, k) {
          assert DecidedByDoubleTouch(path, b, deadline, k);
        }
      } else {
        StopFirstIsConservative(path, b, deadline, k + 1);
        assert DecidedByDoubleTouch(path, b, deadline, k) <==> DecidedByDoubleTouch(path, b, deadline, k + 1);
      }
    }
  }

  /** `q` is `p` with more bars. */
  ghost predicate Extends(q: Path, p: Path)
    requires p.Shaped() && q.Shaped()
  {
    p.minutes <= q.minutes && p.close <= q.close && p.best <= q.best && p.worst <= q.worst
  }

  /** More data never changes an exit already found. */
  lemma {:induction false} ExitsAreFinal(p: Path, q: Path, b: Barriers, deadline: int, k: nat)
    requires p.Shaped() && q.Shaped() && Extends(q, p) && 0 < k <= |p.minutes|
    requires FirstExit(p, b, deadline, k).Some?
    ensures FirstExit(q, b, deadline, k) == FirstExit(p, b, deadline, k)
    decreases |p.minutes| - k
  {
    assert Ends(p, b, deadline, k) <==> Ends(q, b, deadline, k);
    if !Ends(p, b, deadline, k) {
      ExitsAreFinal(p, q, b, deadline, k + 1);
    }
  }
}
