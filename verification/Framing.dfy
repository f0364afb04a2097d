/** Texts joined by fixed frames, and exactly when the frames can be told from the contents. */
module Framing {

  /** The contents one after another, with a frame between each two. */
  function Joined(frames: seq<string>, contents: seq<string>): string
    requires |contents| == |frames| + 1
  {
    if frames == [] then contents[0] else contents[0] + frames[0] + Joined(frames[1..], contents[1..])
  }

  predicate OccursAt(frame: string, text: string, s: nat) {
    s + |frame| <= |text| && text[s..s + |frame|] == frame
  }

  /** The frame begins before its place, inside the content it ends. */
  ghost predicate ComesEarly(before: string, frame: string) {
    exists s: nat :: s < |before| && OccursAt(frame, before + frame, s)
  }

  /** The frame begins again after its place. */
  ghost predicate ComesAgain(frame: string, after: string) {
    exists s: nat :: s > 0 && OccursAt(frame, frame + after, s)
  }

  /** The frame occurs in `before + frame` only at its end, and in `frame + after` only at its start. */
  ghost predicate FrameIsUnique(before: string, frame: string, after: string) {
    !ComesEarly(before, frame) && !ComesAgain(frame, after)
  }

  ghost predicate AllFramesUnique(frames: seq<string>, contents: seq<string>)
    requires |contents| == |frames| + 1
  {
    forall i :: 0 <= i < |frames| ==> FrameIsUnique(contents[i], frames[i], contents[i + 1])
  }

  lemma {:induction false} JoinedStep(frames: seq<string>, contents: seq<string>)
    requires |contents| == |frames| + 1 && frames != []
    ensures Joined(frames, contents) == contents[0] + (frames[0] + Joined(frames[1..], contents[1..]))
  {
    assert contents[0] + frames[0] + Joined(frames[1..], contents[1..]) ==
      contents[0] + (frames[0] + Joined(frames[1..], contents[1..]));
  }

  lemma {:induction false} UniqueTail(frames: seq<string>, contents: seq<string>)
    requires |contents| == |frames| + 1 && frames != []
    ensures AllFramesUnique(frames, contents) <==>
      FrameIsUnique(contents[0], frames[0], contents[1]) && AllFramesUnique(frames[1..], contents[1..])
  {
    if AllFramesUnique(frames, contents) {
      assert FrameIsUnique(contents[0], frames[0], contents[0 + 1]);
      forall i | 0 <= i < |frames[1..]|
        ensures FrameIsUnique(contents[1..][i], frames[1..][i], contents[1..][i + 1])
      {
        assert FrameIsUnique(contents[i + 1], frames[i + 1], contents[i + 1 + 1]);
      }
    }
    if AllFramesUnique(frames[1..], contents[1..]) && FrameIsUnique(contents[0], frames[0], contents[1]) {
      forall i | 0 <= i < |frames|
        ensures FrameIsUnique(contents[i], frames[i], contents[i + 1])
      {
        if i > 0 {
          assert FrameIsUnique(contents[1..][i - 1], frames[1..][i - 1], contents[1..][i - 1 + 1]);
        }
      }
    }
  }

  /** Where one text begins with `x + f`, and also has `f` at `s` no further than that, so does `x + f`. */
  lemma {:induction false} OccursInside(x: string, f: string, rest: string, s: nat)
    requires s <= |x| && OccursAt(f, x + (f + rest), s)
    ensures OccursAt(f, x + f, s)
  {
    assert x + (f + rest) == (x + f) + rest;
    assert (x + (f + rest))[s..s + |f|] == (x + f)[s..s + |f|];
  }

  lemma {:induction false} OccursAfter(u: string, f: string, rest: string)
    ensures OccursAt(f, u + (f + rest), |u|)
  {
    assert (u + (f + rest))[|u|..|u| + |f|] == f;
  }

  lemma {:induction false} Drop(u: string, x: string, y: string, k: nat)
    requires u + x == y && k <= |u|
    ensures u[k..] + x == y[k..]
  {
  }

  lemma {:induction false} SkipFrame(frame: string, x: string, rest: string)
    ensures (frame + (x + rest))[|frame| + |x|..] == rest
  {
  }

  lemma {:induction false} OccursWithin(frame: string, content: string, rest: string, s: nat)
    requires s <= |content| && OccursAt(frame, frame + (content + rest), s)
    ensures OccursAt(frame, frame + content, s)
  {
    assert frame + (content + rest) == (frame + content) + rest;
    assert (frame + (content + rest))[s..s + |frame|] == (frame + content)[s..s + |frame|];
  }

  /** A second reading in which a frame lies later makes that frame or a later one ambiguous. */
  lemma {:induction false} LateReading(
    frame: string, frames: seq<string>, contents: seq<string>, others: seq<string>, u: string)
    requires |contents| == |others| == |frames| + 1 && u != []
    requires frame + Joined(frames, contents) == u + (frame + Joined(frames, others))
    ensures ComesAgain(frame, contents[0]) || !AllFramesUnique(frames, contents)
    decreases |frames|
  {
    OccursAfter(u, frame, Joined(frames, others));
    if frames == [] {
      assert OccursAt(frame, frame + contents[0], |u|);
    } else {
      JoinedStep(frames, contents);
      JoinedStep(frames, others);
      var tail, tail' := Joined(frames[1..], contents[1..]), Joined(frames[1..], others[1..]);
      if |u| <= |contents[0]| {
        OccursWithin(frame, contents[0], frames[0] + tail, |u|);
      } else {
        var k := |frame| + |contents[0]|;
        var v := (u + (frame + others[0]))[k..];
        SkipFrame(frame, contents[0], frames[0] + tail);
        assert u + (frame + (others[0] + (frames[0] + tail'))) == (u + (frame + others[0])) + (frames[0] + tail');
        Drop(u + (frame + others[0]), frames[0] + tail', frame + Joined(frames, contents), k);
        LateReading(frames[0], frames[1..], contents[1..], others[1..], v);
        UniqueTail(frames, contents);
      }
    }
  }

  lemma {:induction false} SameFirst(frames: seq<string>, contents: seq<string>, others: seq<string>)
    requires |contents| == |others| == |frames| + 1 && frames != [] && AllFramesUnique(frames, contents)
    requires Joined(frames, contents) == Joined(frames, others)
    ensures contents[0] == others[0] && Joined(frames[1..], contents[1..]) == Joined(frames[1..], others[1..])
  {
    JoinedStep(frames, contents);
    JoinedStep(frames, others);
    UniqueTail(frames, contents);
    var x, y, f := contents[0], others[0], frames[0];
    var tail, tail' := Joined(frames[1..], contents[1..]), Joined(frames[1..], others[1..]);
    OccursAfter(y, f, tail');
    if |y| <= |x| {
      OccursInside(x, f, tail, |y|);
    } else {
      var u := y[|x|..];
      Drop(y, f + tail', x + (f + tail), |x|);
      SkipFrame([], x, f + tail);
      assert [] + (x + (f + tail)) == x + (f + tail);
      LateReading(f, frames[1..], contents[1..], others[1..], u);
    }
    assert |y| == |x|;
    assert x == (x + (f + tail))[..|x|] && y == (y + (f + tail'))[..|y|];
    assert f + tail == (x + (f + tail))[|x|..] && f + tail' == (y + (f + tail'))[|y|..];
    assert tail == (f + tail)[|f|..] && tail' == (f + tail')[|f|..];
  }

  /** Unique frames: the joined text determines the contents. */
  lemma {:induction false} UniqueFramesPin(frames: seq<string>, contents: seq<string>, others: seq<string>)
    requires |contents| == |others| == |frames| + 1 && AllFramesUnique(frames, contents)
    requires Joined(frames, contents) == Joined(frames, others)
    ensures contents == others
  {
    if frames != [] {
      SameFirst(frames, contents, others);
      UniqueTail(frames, contents);
      UniqueFramesPin(frames[1..], contents[1..], others[1..]);
      assert contents == [contents[0]] + contents[1..] && others == [others[0]] + others[1..];
    }
  }

  // ----- an ambiguous frame gives a second reading

  /** Two neighbours read differently around the same frame. */
  ghost predicate SecondReading(before: string, frame: string, after: string, before': string, after': string) {
    before' != before && before' + frame + after' == before + frame + after
  }

  lemma {:induction false} CutAt(frame: string, text: string, s: nat)
    requires OccursAt(frame, text, s)
    ensures text == text[..s] + frame + text[s + |frame|..]
  {
    assert text == text[..s] + text[s..s + |frame|] + text[s + |frame|..];
  }

  lemma {:induction false} AmbiguousFrame(before: string, frame: string, after: string)
    returns (before': string, after': string)
    requires !FrameIsUnique(before, frame, after)
    ensures SecondReading(before, frame, after, before', after')
  {
    if ComesEarly(before, frame) {
      var s: nat :| s < |before| && OccursAt(frame, before + frame, s);
      var text := before + frame;
      CutAt(frame, text, s);
      before', after' := text[..s], text[s + |frame|..] + after;
      assert before' + frame + after' == text[..s] + frame + text[s + |frame|..] + after;
    } else {
      var s: nat :| s > 0 && OccursAt(frame, frame + after, s);
      var text := frame + after;
      CutAt(frame, text, s);
      before', after' := before + text[..s], text[s + |frame|..];
      assert before' + frame + after' == before + (text[..s] + frame + text[s + |frame|..]);
      assert before + text == before + frame + after;
    }
  }

  /** Changing two neighbours to a second reading leaves the joined text. */
  lemma {:induction false} SecondReadingJoins(
    frames: seq<string>, contents: seq<string>, i: nat, before': string, after': string)
    requires |contents| == |frames| + 1 && i < |frames|
    requires before' + frames[i] + after' == contents[i] + frames[i] + contents[i + 1]
    ensures Joined(frames, contents[i := before'][i + 1 := after']) == Joined(frames, contents)
    decreases i
  {
    var others := contents[i := before'][i + 1 := after'];
    if i > 0 {
      SecondReadingJoins(frames[1..], contents[1..], i - 1, before', after');
      assert others[1..] == contents[1..][i - 1 := before'][i := after'];
    } else if |frames| == 1 {
      assert frames[1..] == [];
    } else {
      var tail := Joined(frames[1..][1..], contents[1..][1..]);
      assert others[1..][1..] == contents[1..][1..];
      Reassociate(contents[0], frames[0], contents[1], frames[1], tail);
      Reassociate(before', frames[0], after', frames[1], tail);
    }
  }

  lemma {:induction false} Reassociate(x: string, f: string, y: string, g: string, tail: string)
    ensures x + f + (y + g + tail) == (x + f + y) + (g + tail)
  {
  }

  /** The joined text determines the contents exactly when every frame is unique between its neighbours. */
  lemma {:induction false} PinnedIffUnique(frames: seq<string>, contents: seq<string>)
    requires |contents| == |frames| + 1
    ensures AllFramesUnique(frames, contents) <==> forall others: seq<string> ::
      |others| == |contents| && Joined(frames, others) == Joined(frames, contents) ==> others == contents
  {
    if AllFramesUnique(frames, contents) {
      forall others: seq<string> | |others| == |contents| && Joined(frames, others) == Joined(frames, contents)
        ensures others == contents
      {
        UniqueFramesPin(frames, contents, others);
      }
    } else {
      var i :| 0 <= i < |frames| && !FrameIsUnique(contents[i], frames[i], contents[i + 1]);
      var before', after' := AmbiguousFrame(contents[i], frames[i], contents[i + 1]);
      SecondReadingJoins(frames, contents, i, before', after');
      assert contents[i := before'][i + 1 := after'][i] == before';
    }
  }
}
