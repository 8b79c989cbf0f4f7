/**
  What the playout buffer plays when the sink stays attached and every write succeeds: all of the
  stream, each frame fitted to the time until the next one.
 */
module AudioDelivery {
  import opened Common
  import opened AudioPlayout

  /** The timestamps advance by these gaps, wrapping around at 2^32, none so long as to start the
      clock anew; the sink is attached throughout. */
  ghost predicate Continuous(inputs: seq<Input>, gaps: seq<nat>) {
    && |inputs| == |gaps| + 1
    && (forall i :: 0 <= i < |inputs| ==> inputs[i].attached)
    && (forall i :: 0 <= i < |gaps| ==>
          && 0 < gaps[i] <= MAX_GAP_SAMPLES
          && inputs[i + 1].timestamp == (inputs[i].timestamp + gaps[i]) % TWO32)
  }

  /** No frame is longer than the usual one. */
  predicate Short(inputs: seq<Input>) {
    forall i :: 0 <= i < |inputs| ==> |inputs[i].frame| <= FRAME_SAMPLES
  }

  /** The first n frames, each cut or zero-padded to its gap, padded to one frame's length at most. */
  function Fitted(inputs: seq<Input>, gaps: seq<nat>, n: nat): (r: seq<Samples>)
    requires n <= |inputs| && n <= |gaps|
    ensures |r| == n
    ensures forall i :: 0 <= i < n ==> r[i] == Align(inputs[i].frame, gaps[i])
  {
    seq(n, i requires 0 <= i < n => Align(inputs[i].frame, gaps[i]))
  }

  lemma FittedSnoc(inputs: seq<Input>, gaps: seq<nat>, n: nat)
    requires n < |inputs| && n < |gaps|
    ensures Fitted(inputs, gaps, n + 1) == Fitted(inputs, gaps, n) + [Align(inputs[n].frame, gaps[n])]
    ensures Total(Fitted(inputs, gaps, n + 1)) == Total(Fitted(inputs, gaps, n)) + |Align(inputs[n].frame, gaps[n])|
  {
    TotalSnoc(Fitted(inputs, gaps, n), Align(inputs[n].frame, gaps[n]));
    assert Fitted(inputs, gaps, n + 1) == Fitted(inputs, gaps, n) + [Align(inputs[n].frame, gaps[n])];
  }

  /** How far the playout has come: everything fitted is written once two frames' worth is there, and
      waits until then. */
  ghost predicate Plays(p: AudioPlayoutBuffer, fitted: seq<Samples>)
    reads p, p.sink
  {
    if Total(fitted) >= PREFILL_SAMPLES then p.started && p.sink.log == fitted && p.prefill == []
    else !p.started && p.sink.log == [] && p.prefill == fitted
  }

  /** One push more. */
  method PushNext(p: AudioPlayoutBuffer, inputs: seq<Input>, gaps: seq<nat>, i: nat)
    requires p.Valid() && p.sink.Flawless() && Continuous(inputs, gaps) && Short(inputs) && i < |gaps|
    requires p.pending == Some(Pending(inputs[i].timestamp, inputs[i].frame)) && Plays(p, Fitted(inputs, gaps, i))
    modifies p, p.sink
    ensures p.Valid() && Plays(p, Fitted(inputs, gaps, i + 1))
    ensures p.pending == Some(Pending(inputs[i + 1].timestamp, inputs[i + 1].frame))
  {
    hide AudioPlayoutBuffer.Valid, Total, Delta, Align, Sink.Flawless, Fitted;
    ghost var fitted := Fitted(inputs, gaps, i);
    ghost var ready := Align(inputs[i].frame, gaps[i]);
    DeltaIsTheAdvance(inputs[i].timestamp, gaps[i]);
    FittedSnoc(inputs, gaps, i);
    assert inputs[i + 1].attached && |ready| <= FRAME_SAMPLES;
    ghost var kept := fitted + [ready];
    if Total(fitted) < PREFILL_SAMPLES {
      assert Trim(kept) == kept;
    }
    hide Continuous, Short, Trim;
    var _, _ := p.Push(inputs[i + 1].timestamp, inputs[i + 1].frame, true);
    if Total(fitted) < PREFILL_SAMPLES {
      assert [] + kept == kept && p.sink.log + [] == p.sink.log && [] + p.prefill == p.prefill;
    }
  }

  /** A continuous stream of short frames is played whole and in order, but for the last frame,
      whose time has not come. */
  method Deliver(inputs: seq<Input>, gaps: seq<nat>, fails: nat -> bool) returns (p: AudioPlayoutBuffer)
    requires Continuous(inputs, gaps) && Short(inputs) && forall n: nat :: !fails(n)
    ensures p.Valid() && p.sink.Flawless() && fresh(p) && fresh(p.sink)
    ensures Plays(p, Fitted(inputs, gaps, |gaps|))
    ensures p.pending == Some(Pending(inputs[|gaps|].timestamp, inputs[|gaps|].frame))
  {
    hide AudioPlayoutBuffer.Valid, Total, Fitted, Align;
    var sink := new Sink(fails);
    p := new AudioPlayoutBuffer(sink);
    NothingFitted(inputs, gaps);
    var _, _ := p.Push(inputs[0].timestamp, inputs[0].frame, true);
    for i := 0 to |gaps|
      invariant p.sink == sink && p.Valid() && sink.Flawless()
      invariant p.pending == Some(Pending(inputs[i].timestamp, inputs[i].frame))
      invariant Plays(p, Fitted(inputs, gaps, i))
    {
      PushNext(p, inputs, gaps, i);
    }
  }

  lemma NothingFitted(inputs: seq<Input>, gaps: seq<nat>)
    ensures Fitted(inputs, gaps, 0) == [] && Total(Fitted(inputs, gaps, 0)) == 0
  {
  }

  // ----- the steady stream -----

  /** Whole frames every 960 samples, from some timestamp on. */
  ghost predicate Steady(inputs: seq<Input>, t0: Stamp) {
    forall i :: 0 <= i < |inputs| ==>
      && inputs[i].attached && |inputs[i].frame| == FRAME_SAMPLES
      && inputs[i].timestamp == (t0 + FRAME_SAMPLES * i) % TWO32
  }

  function Frames(inputs: seq<Input>): (f: seq<Samples>)
    ensures |f| == |inputs| && forall i :: 0 <= i < |f| ==> f[i] == inputs[i].frame
  {
    seq(|inputs|, i requires 0 <= i < |inputs| => inputs[i].frame)
  }

  lemma {:induction false} WholeFrames(frames: seq<Samples>)
    requires forall i :: 0 <= i < |frames| ==> |frames[i]| == FRAME_SAMPLES
    ensures Total(frames) == FRAME_SAMPLES * |frames|
  {
    if frames != [] {
      WholeFrames(frames[1..]);
    }
  }

  lemma SteadyIsContinuous(inputs: seq<Input>, t0: Stamp, gaps: seq<nat>)
    requires Steady(inputs, t0) && inputs != [] && gaps == seq(|inputs| - 1, _ => FRAME_SAMPLES)
    ensures Continuous(inputs, gaps) && Short(inputs)
    ensures Fitted(inputs, gaps, |gaps|) == Frames(inputs)[..|inputs| - 1]
    ensures Total(Frames(inputs)[..|inputs| - 1]) == FRAME_SAMPLES * (|inputs| - 1)
  {
    forall i | 0 <= i < |gaps| ensures inputs[i + 1].timestamp == (inputs[i].timestamp + gaps[i]) % TWO32 {
      ModAbsorbs(t0 + FRAME_SAMPLES * i, FRAME_SAMPLES, TWO32);
    }
    forall i | 0 <= i < |gaps| ensures Align(inputs[i].frame, gaps[i]) == inputs[i].frame {
    }
    WholeFrames(Frames(inputs)[..|inputs| - 1]);
  }

  /** A steady stream: what is written and what waits are all frames before the last, and from the
      third push on all of them are written.  Flushing then writes the last one too, and draining
      writes it at any time. */
  method DeliverSteady(inputs: seq<Input>, t0: Stamp, fails: nat -> bool, flush: bool, drain: bool)
    returns (log: seq<Samples>, buffered: seq<Samples>)
    requires Steady(inputs, t0) && inputs != [] && forall n: nat :: !fails(n)
    ensures !drain && !(flush && |inputs| >= 3) ==> log + buffered == Frames(inputs)[..|inputs| - 1]
    ensures |inputs| >= 3 ==> buffered == []
    ensures drain || (flush && |inputs| >= 3) ==> log == Frames(inputs)
  {
    var gaps := seq(|inputs| - 1, _ => FRAME_SAMPLES);
    SteadyIsContinuous(inputs, t0, gaps);
    var p := Deliver(inputs, gaps, fails);
    log, buffered := EndSteady(p, Frames(inputs), flush, drain);
  }

  method EndSteady(p: AudioPlayoutBuffer, ghost frames: seq<Samples>, flush: bool, drain: bool)
    returns (log: seq<Samples>, buffered: seq<Samples>)
    requires p.Valid() && p.sink.Flawless() && frames != [] && p.pending.Some?
    requires p.pending.value.pcm == frames[|frames| - 1]
    requires Total(frames[..|frames| - 1]) == FRAME_SAMPLES * (|frames| - 1) && Plays(p, frames[..|frames| - 1])
    modifies p, p.sink
    ensures !drain && !(flush && |frames| >= 3) ==> log + buffered == frames[..|frames| - 1]
    ensures |frames| >= 3 ==> buffered == []
    ensures drain || (flush && |frames| >= 3) ==> log == frames
  {
    ghost var before, last := frames[..|frames| - 1], frames[|frames| - 1];
    assert frames == before + [last];
    assert (|frames| >= 3 ==> p.started && p.sink.log == before && p.prefill == [])
           && (|frames| < 3 ==> !p.started && p.sink.log == [] && p.prefill == before);
    hide AudioPlayoutBuffer.Valid, Total, Plays, Sink.Flawless;
    if flush {
      var _ := p.Flush(true);
    }
    if drain {
      ghost var held := p.Held();
      assert p.sink.log + held == frames;
      var failed, written := p.Drain(true);
      assert held[..written] == held;
    }
    log, buffered := p.sink.log, p.prefill;
  }
}
