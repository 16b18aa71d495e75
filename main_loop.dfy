/**
 * The per-frame state of main.py's driving loop: the rolling intensity window
 * (append, then evict the oldest sample past max_len) and whether a previous frame
 * exists, together with the choice each frame makes between running the temporal
 * analysis and showing the start-up progress message.
 *
 * A frame is reduced to the mean intensity of its sampling strip, a `real`; the
 * previous frame itself is reduced to the fact that there is one.
 */
module MainLoop {

  /** Capacity of the intensity window (max_len). */
  const MaxLen: nat := 128

  /** What a frame leads to once its sample has been pushed. */
  datatype FrameOutcome =
    | Analyze(window: seq<real>)  // direction and frequency analysis run on this window
    | StartingUp(percent: int)    // the start-up message shows this percentage
    | Idle                        // neither branch is taken

  /** The window after one sample: appended last, the oldest evicted past MaxLen. */
  function Pushed(w: seq<real>, x: real): (r: seq<real>)
    ensures |r| > 0 && r[|r| - 1] == x
    ensures |w| < MaxLen ==> r == w + [x]
    ensures |w| >= MaxLen ==> |r| == |w|
  {
    var a := w + [x];
    if |a| > MaxLen then a[1..] else a
  }

  /** A push keeps the samples it does not evict, in their order, in front of the new one. */
  lemma PushedKeepsOrder(w: seq<real>, x: real)
    ensures var r := Pushed(w, x);
            |r| <= |w| + 1 && forall i :: 0 <= i < |r| - 1 ==> r[i] == w[|w| + 1 - |r| + i]
  {
  }

  /** The window after pushing every sample of xs, in order. */
  function PushedAll(w: seq<real>, xs: seq<real>): seq<real>
    decreases |xs|
  {
    if xs == [] then w else Pushed(PushedAll(w, xs[..|xs| - 1]), xs[|xs| - 1])
  }

  /** The last n elements of s, or all of s when it has fewer. */
  function LastN(s: seq<real>, n: nat): (r: seq<real>)
    ensures |r| == if |s| <= n then |s| else n
    ensures forall i :: 0 <= i < |r| ==> r[i] == s[|s| - |r| + i]
  {
    if |s| <= n then s else s[|s| - n..]
  }

  lemma PushedKeepsLast(s: seq<real>, x: real)
    ensures Pushed(LastN(s, MaxLen), x) == LastN(s + [x], MaxLen)
  {
    var w := LastN(s, MaxLen);
    var r := Pushed(w, x);
    var t := LastN(s + [x], MaxLen);
    assert |r| == |t|;
    forall i | 0 <= i < |r| ensures r[i] == t[i] {
      if i < |r| - 1 {
        assert r[i] == r[..|r| - 1][i];
      }
    }
  }

  /** Pushing a stream onto a window within capacity keeps the last MaxLen samples of both. */
  lemma {:induction false} PushedAllKeepsLast(w: seq<real>, xs: seq<real>)
    requires |w| <= MaxLen
    ensures PushedAll(w, xs) == LastN(w + xs, MaxLen)
    decreases |xs|
  {
    if xs == [] {
      assert w + xs == w;
    } else {
      var ys, x := xs[..|xs| - 1], xs[|xs| - 1];
      calc {
        PushedAll(w, xs);
        Pushed(PushedAll(w, ys), x);
        { PushedAllKeepsLast(w, ys); }
        Pushed(LastN(w + ys, MaxLen), x);
        { PushedKeepsLast(w + ys, x); }
        LastN(w + ys + [x], MaxLen);
        { assert w + ys + [x] == w + xs; }
        LastN(w + xs, MaxLen);
      }
    }
  }

  /**
   * From an empty window, after k pushes the window holds exactly the last
   * min(k, MaxLen) samples, in the order they were pushed.
   */
  lemma FreshWindowHoldsLastSamples(xs: seq<real>)
    ensures var w := PushedAll([], xs);
            |w| == (if |xs| < MaxLen then |xs| else MaxLen) &&
            forall i :: 0 <= i < |w| ==> w[i] == xs[|xs| - |w| + i]
  {
    assert PushedAll([], xs) == LastN(xs, MaxLen) by {
      PushedAllKeepsLast([], xs);
      assert [] + xs == xs;
    }
  }

  /**
   * The percentage shown while the window fills: int(len / max_len * 100), where
   * int() truncates, which is the floor for a non-negative value.
   */
  function ProgressPercent(len: nat): (r: int)
    ensures r == (len * 100) / MaxLen
    ensures len < MaxLen ==> 0 <= r <= 99
  {
    var x := (len as real) / (MaxLen as real) * 100.0;
    var q := (len * 100) / MaxLen;
    assert (q * MaxLen) as real <= (len * 100) as real < ((q + 1) * MaxLen) as real;
    assert (q as real) <= x < (q as real) + 1.0;
    x.Floor
  }

  /** The branch taken at main.py:32 and :48 once the frame's sample is in the window. */
  function Gate(hasPrevFrame: bool, w: seq<real>): FrameOutcome {
    if hasPrevFrame && |w| >= MaxLen then Analyze(w)
    else if |w| < MaxLen then StartingUp(ProgressPercent(|w|))
    else Idle
  }

  /**
   * Within capacity, the analysis branch runs exactly when a previous frame exists
   * and the window is full (the >= test behaves as ==), the start-up branch exactly
   * when the window is not full, and its percentage lies in [0, 99].
   */
  lemma GateWithinCapacity(hasPrevFrame: bool, w: seq<real>)
    requires |w| <= MaxLen
    ensures Gate(hasPrevFrame, w).Analyze? <==> hasPrevFrame && |w| == MaxLen
    ensures Gate(hasPrevFrame, w).Analyze? ==> Gate(hasPrevFrame, w).window == w
    ensures Gate(hasPrevFrame, w).StartingUp? <==> |w| < MaxLen
    ensures Gate(hasPrevFrame, w).StartingUp? ==> 0 <= Gate(hasPrevFrame, w).percent <= 99
    ensures Gate(hasPrevFrame, w).Idle? <==> !hasPrevFrame && |w| == MaxLen
  {
  }

  /** The outcome of frame j of a stream pushed onto window w, a previous frame existing or not. */
  ghost function Scheduled(hasPrevFrame: bool, w: seq<real>, samples: seq<real>, j: nat): FrameOutcome
    requires j < |samples|
  {
    Gate(hasPrevFrame || j > 0, PushedAll(w, samples[..j + 1]))
  }

  /**
   * From a fresh start, frame i (counting from 0) shows the start-up message with
   * (i + 1) * 100 / MaxLen percent until the window first fills; from frame
   * MaxLen - 1 on it analyses exactly the MaxLen most recent samples.
   */
  lemma {:induction false} FreshSchedule(xs: seq<real>, i: nat)
    requires i < |xs|
    ensures Scheduled(false, [], xs, i) ==
            if i + 1 >= MaxLen then Analyze(xs[i + 1 - MaxLen..i + 1])
            else StartingUp((i + 1) * 100 / MaxLen)
  {
    var prefix := xs[..i + 1];
    FreshWindowHoldsLastSamples(prefix);
    var w := PushedAll([], prefix);
    if i + 1 >= MaxLen {
      assert w == xs[i + 1 - MaxLen..i + 1];
    }
  }

  /** The state main.py carries from one frame to the next. */
  class Session {
    var intensitySeries: seq<real>
    var hasPrevFrame: bool

    ghost predicate Valid()
      reads this
    {
      |intensitySeries| <= MaxLen
    }

    constructor ()
      ensures Valid() && intensitySeries == [] && !hasPrevFrame
    {
      intensitySeries := [];
      hasPrevFrame := false;
    }

    /** Append one sample and drop the oldest once the window is past capacity. */
    method Push(sample: real)
      modifies this
      ensures intensitySeries == Pushed(old(intensitySeries), sample)
      ensures hasPrevFrame == old(hasPrevFrame)
      ensures old(Valid()) ==> Valid()
    {
      intensitySeries := intensitySeries + [sample];
      if |intensitySeries| > MaxLen {
        intensitySeries := intensitySeries[1..];
      }
    }

    /** One pass of the loop body: push the frame's sample, choose a branch, keep the frame. */
    method Step(sample: real) returns (outcome: FrameOutcome)
      requires Valid()
      modifies this
      ensures Valid()
      ensures intensitySeries == Pushed(old(intensitySeries), sample)
      ensures outcome == Gate(old(hasPrevFrame), intensitySeries)
      ensures hasPrevFrame
    {
      Push(sample);
      if hasPrevFrame && |intensitySeries| >= MaxLen {
        outcome := Analyze(intensitySeries);
      } else if |intensitySeries| < MaxLen {
        outcome := StartingUp(ProgressPercent(|intensitySeries|));
      } else {
        outcome := Idle;
      }
      hasPrevFrame := true;
    }

    /** The loop over a finite stream of frame samples, one outcome per frame. */
    method Run(samples: seq<real>) returns (outcomes: seq<FrameOutcome>)
      requires Valid()
      modifies this
      ensures Valid()
      ensures intensitySeries == PushedAll(old(intensitySeries), samples)
      ensures intensitySeries == LastN(old(intensitySeries) + samples, MaxLen)
      ensures hasPrevFrame == (old(hasPrevFrame) || |samples| > 0)
      ensures |outcomes| == |samples|
      ensures forall i :: 0 <= i < |samples| ==>
                outcomes[i] == Scheduled(old(hasPrevFrame), old(intensitySeries), samples, i)
    {
      ghost var w0, prev0 := intensitySeries, hasPrevFrame;
      outcomes := [];
      var i := 0;
      while i < |samples|
        invariant 0 <= i <= |samples|
        invariant Valid()
        invariant intensitySeries == PushedAll(w0, samples[..i])
        invariant hasPrevFrame == (prev0 || i > 0)
        invariant |outcomes| == i
        invariant forall j :: 0 <= j < i ==> outcomes[j] == Scheduled(prev0, w0, samples, j)
      {
        assert PushedAll(w0, samples[..i + 1]) == Pushed(PushedAll(w0, samples[..i]), samples[i]) by {
          assert samples[..i + 1][..i] == samples[..i];
        }
        var outcome := Step(samples[i]);
        assert outcome == Scheduled(prev0, w0, samples, i);
        outcomes := outcomes + [outcome];
        i := i + 1;
      }
      assert samples[..i] == samples;
      assert intensitySeries == LastN(w0 + samples, MaxLen) by {
        PushedAllKeepsLast(w0, samples);
      }
    }
  }
}
