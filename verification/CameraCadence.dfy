/** The timestamp-only frame rate estimator (contracts/camera-cadence-proposal/verify.py). */
module CameraCadence {

  const TICKS: int := 90000
  const SPAN: int := 360000

  function Abs(x: int): nat {
    if x < 0 then -x else x
  }

  function Maximum(width: int, height: int): nat {
    if width > 1920 || height > 1080 then 20 else 30
  }

  predicate Increasing(ts: seq<int>) {
    forall i :: 0 <= i < |ts| - 1 ==> ts[i] < ts[i + 1]
  }

  /** Every frame lies within half a frame of its place at this rate. */
  predicate FitsRate(ts: seq<int>, fps: nat) {
    forall i :: 0 <= i < |ts| ==> Abs(fps * (ts[i] - ts[0]) - TICKS * i) <= TICKS / 2 + fps
  }

  predicate Usable(ts: seq<int>) {
    |ts| >= 2 && ts[|ts| - 1] - ts[0] >= SPAN && Increasing(ts)
  }

  function RatesUpTo(ts: seq<int>, maximum: nat): seq<nat> {
    if maximum == 0 then []
    else RatesUpTo(ts, maximum - 1) + (if FitsRate(ts, maximum) then [maximum] else [])
  }

  function Candidates(ts: seq<int>, width: int, height: int): seq<nat> {
    if Usable(ts) then RatesUpTo(ts, Maximum(width, height)) else []
  }

  lemma {:induction false} RatesAre(ts: seq<int>, maximum: nat, fps: nat)
    ensures fps in RatesUpTo(ts, maximum) <==> 1 <= fps <= maximum && FitsRate(ts, fps)
  {
    hide FitsRate;
    if maximum > 0 {
      RatesAre(ts, maximum - 1, fps);
    }
  }

  /** Over so long a span two rates cannot both fit. */
  lemma RatesExclude(ts: seq<int>, f: nat, g: nat)
    requires Usable(ts) && 1 <= f < g <= 30 && FitsRate(ts, f)
    ensures !FitsRate(ts, g)
  {
    hide FitsRate;
    var n := |ts| - 1;
    RateAt(ts, f, n);
    Apart(ts[n] - ts[0], f, g);
    if FitsRate(ts, g) {
      RateAt(ts, g, n);
      assert false;
    }
  }

  lemma RateAt(ts: seq<int>, fps: nat, i: nat)
    requires FitsRate(ts, fps) && i < |ts|
    ensures Abs(fps * (ts[i] - ts[0]) - TICKS * i) <= TICKS / 2 + fps
  {
  }

  lemma {:induction false} Apart(span: int, f: nat, g: nat)
    requires f < g && span >= 0
    ensures g * span - f * span >= span
    decreases g
  {
    assert g * span == (g - 1) * span + span;
    if f < g - 1 {
      Apart(span, f, g - 1);
    }
  }

  lemma {:induction false} AtMostOneUpTo(ts: seq<int>, maximum: nat)
    requires Usable(ts) && maximum <= 30
    ensures |RatesUpTo(ts, maximum)| <= 1
  {
    hide FitsRate, Usable;
    if maximum > 0 {
      AtMostOneUpTo(ts, maximum - 1);
      var front := RatesUpTo(ts, maximum - 1);
      if FitsRate(ts, maximum) && front != [] {
        RatesAre(ts, maximum - 1, front[0]);
        RatesExclude(ts, front[0], maximum);
      }
    }
  }

  /** Whatever the timestamps, at most one rate is returned. */
  lemma AtMostOneRate(ts: seq<int>, width: int, height: int)
    ensures |Candidates(ts, width, height)| <= 1
  {
    if Usable(ts) {
      AtMostOneUpTo(ts, Maximum(width, height));
    }
  }

  /** A rate is returned exactly when the timestamps are usable and it is the only one up to the maximum that fits. */
  lemma ReturnedExactlyWhen(ts: seq<int>, width: int, height: int, fps: nat)
    ensures Candidates(ts, width, height) == [fps] <==>
              Usable(ts) && 1 <= fps <= Maximum(width, height) && FitsRate(ts, fps)
  {
    hide FitsRate, Usable;
    if Usable(ts) {
      RatesAre(ts, Maximum(width, height), fps);
      AtMostOneUpTo(ts, Maximum(width, height));
    }
  }

  /** In figures: four seconds of strictly increasing 90 kHz timestamps, each frame within half a frame and one tick. */
  lemma ReturnedInFigures(ts: seq<int>, width: int, height: int, fps: nat)
    ensures Candidates(ts, width, height) == [fps] <==>
              && |ts| >= 2 && ts[|ts| - 1] >= ts[0] + 360000 && (forall i :: 0 <= i < |ts| - 1 ==> ts[i + 1] > ts[i])
              && 1 <= fps <= 30 && (width > 1920 || height > 1080 ==> fps <= 20)
              && (forall i :: 0 <= i < |ts| ==> -45000 - fps <= fps * (ts[i] - ts[0]) - 90000 * i <= 45000 + fps)
  {
    hide Candidates;
    ReturnedExactlyWhen(ts, width, height, fps);
    assert FitsRate(ts, fps) <==> forall i :: 0 <= i < |ts| ==> -45000 - fps <= fps * (ts[i] - ts[0]) - 90000 * i <= 45000 + fps by {
      FitsInFigures(ts, fps);
    }
  }

  lemma FitsInFigures(ts: seq<int>, fps: nat)
    ensures FitsRate(ts, fps) <==> forall i :: 0 <= i < |ts| ==> -45000 - fps <= fps * (ts[i] - ts[0]) - 90000 * i <= 45000 + fps
  {
    if FitsRate(ts, fps) {
      forall i | 0 <= i < |ts| ensures -45000 - fps <= fps * (ts[i] - ts[0]) - 90000 * i <= 45000 + fps {
        RateAt(ts, fps, i);
      }
    }
  }

  predicate ConstantSpacing(ts: seq<int>, spacing: int) {
    forall i :: 0 <= i < |ts| ==> ts[i] == ts[0] + spacing * i
  }

  /** Exact spacing of 90000 / f ticks over a long enough span is recognised as f frames per second. */
  lemma ExactSpacingIsRecognised(ts: seq<int>, width: int, height: int, fps: nat, spacing: nat)
    requires |ts| >= 2 && ts[|ts| - 1] - ts[0] >= SPAN && ConstantSpacing(ts, spacing)
    requires 1 <= fps <= Maximum(width, height) && fps * spacing == TICKS
    ensures Candidates(ts, width, height) == [fps]
  {
    forall i | 0 <= i < |ts| - 1 ensures ts[i] < ts[i + 1] {
      assert ts[i] == ts[0] + spacing * i && ts[i + 1] == ts[0] + spacing * (i + 1);
      assert spacing * (i + 1) == spacing * i + spacing;
    }
    forall i | 0 <= i < |ts| ensures Abs(fps * (ts[i] - ts[0]) - TICKS * i) <= TICKS / 2 + fps {
      assert ts[i] - ts[0] == spacing * i;
      assert fps * (spacing * i) == fps * spacing * i;
    }
    ReturnedExactlyWhen(ts, width, height, fps);
  }
}
