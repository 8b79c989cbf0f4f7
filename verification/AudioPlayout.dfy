/**
  The RTP-timestamped playout buffer: one frame pending its duration, two frames of prefill, then
  straight through.  The sink's writes may fail.
 */
module AudioPlayout {
  import opened Common

  const FRAME_SAMPLES := 960
  const PREFILL_SAMPLES := 1920
  const MAX_GAP_SAMPLES := 32000
  const TWO32 := 0x1_0000_0000

  type Samples = seq<real>
  type Stamp = t: nat | t < TWO32

  /** The clock advance between two timestamps, modulo 2^32. */
  function Delta(from: Stamp, to: Stamp): (d: nat) {
    (to - from) % TWO32
  }

  /** A timestamp d ahead, wrapping around, is an advance of d. */
  lemma DeltaIsTheAdvance(t: Stamp, d: nat)
    requires d < TWO32
    ensures Delta(t, (t + d) % TWO32) == d
  {
    if t + d >= TWO32 {
      QuotientIsUnique(t + d, TWO32, 1, t + d - TWO32);
    }
    assert (t + d) % TWO32 == if t + d < TWO32 then t + d else t + d - TWO32;
  }

  /** The clock advance over a run of timestamps. */
  function Advance(stamps: seq<Stamp>): nat {
    if |stamps| < 2 then 0
    else Advance(stamps[..|stamps| - 1]) + Delta(stamps[|stamps| - 2], stamps[|stamps| - 1])
  }

  lemma AdvanceSnoc(stamps: seq<Stamp>, t: Stamp)
    requires stamps != []
    ensures Advance(stamps + [t]) == Advance(stamps) + Delta(stamps[|stamps| - 1], t)
  {
    assert (stamps + [t])[..|stamps|] == stamps;
  }

  function Total(frames: seq<Samples>): nat {
    if frames == [] then 0 else |frames[0]| + Total(frames[1..])
  }

  lemma {:induction false} TotalSnoc(frames: seq<Samples>, f: Samples)
    ensures Total(frames + [f]) == Total(frames) + |f|
  {
    if frames == [] {
      assert frames + [f] == [f];
    } else {
      assert (frames + [f])[1..] == frames[1..] + [f];
      TotalSnoc(frames[1..], f);
    }
  }

  /** The newest frames within the gap limit, at least one. */
  function Trim(frames: seq<Samples>): seq<Samples> {
    if Total(frames) > MAX_GAP_SAMPLES && |frames| > 1 then Trim(frames[1..]) else frames
  }

  /** Trimming leaves the longest run of newest frames of at most 32000 samples, or the newest frame
      alone. */
  lemma {:induction false} TrimIsLongest(frames: seq<Samples>) returns (k: nat)
    ensures k <= |frames| && Trim(frames) == frames[k..] && (frames != [] ==> k < |frames|)
    ensures Total(frames[k..]) <= 32000 || k == |frames| - 1
    ensures forall i :: 0 <= i < k ==> Total(frames[i..]) > 32000
  {
    if Total(frames) > MAX_GAP_SAMPLES && |frames| > 1 {
      var j := TrimIsLongest(frames[1..]);
      k := j + 1;
      assert frames[1..][j..] == frames[k..];
      forall i | 0 <= i < k ensures Total(frames[i..]) > 32000 {
        if i == 0 {
          assert frames[0..] == frames;
        } else {
          assert frames[1..][i - 1..] == frames[i..];
        }
      }
    } else {
      k := 0;
      assert frames[0..] == frames;
      NoSamples();
    }
  }

  lemma NoSamples()
    ensures Total([]) == 0
  {
  }

  function Max(a: nat, b: nat): nat {
    if a < b then b else a
  }

  /** A frame cut or padded to the clock advance, padded to one frame's length at most. */
  function Align(frame: Samples, samples: nat): (r: Samples)
    ensures |r| == if samples < Max(|frame|, FRAME_SAMPLES) then samples else Max(|frame|, FRAME_SAMPLES)
    ensures forall i :: 0 <= i < |r| ==> r[i] == if i < |frame| then frame[i] else 0.0
  {
    var n := if samples < Max(|frame|, FRAME_SAMPLES) then samples else Max(|frame|, FRAME_SAMPLES);
    if n <= |frame| then frame[..n] else frame + seq(n - |frame|, _ => 0.0)
  }

  ghost predicate AlignedFrom(r: Samples, frame: Samples) {
    exists n: nat :: r == Align(frame, n)
  }

  lemma WholeIsAligned(frame: Samples)
    ensures AlignedFrom(frame, frame)
  {
    assert frame == Align(frame, |frame|);
  }

  // ----- which push a frame came from -----

  /** Written pushes, then buffered ones, in push order without repeats, all among the first n. */
  ghost predicate Ranked(written: seq<nat>, buffered: seq<nat>, n: nat) {
    && (forall i, j :: 0 <= i < j < |written| ==> written[i] < written[j])
    && (forall i, j :: 0 <= i < j < |buffered| ==> buffered[i] < buffered[j])
    && (forall i, j :: 0 <= i < |written| && 0 <= j < |buffered| ==> written[i] < buffered[j])
    && (forall i :: 0 <= i < |written| ==> written[i] < n)
    && (forall i :: 0 <= i < |buffered| ==> buffered[i] < n)
  }

  lemma RankedWrite(written: seq<nat>, buffered: seq<nat>, n: nat)
    requires Ranked(written, buffered, n) && buffered != []
    ensures Ranked(written + [buffered[0]], buffered[1..], n)
  {
  }

  lemma RankedDrop(written: seq<nat>, buffered: seq<nat>, n: nat)
    requires Ranked(written, buffered, n) && buffered != []
    ensures Ranked(written, buffered[1..], n)
  {
  }

  lemma RankedClear(written: seq<nat>, buffered: seq<nat>, n: nat, m: nat)
    requires Ranked(written, buffered, n) && n <= m
    ensures Ranked(written, [], m) && Ranked(written, buffered, m)
  {
  }

  lemma RankedNext(written: seq<nat>, buffered: seq<nat>, n: nat)
    requires Ranked(written, buffered, n)
    ensures Ranked(written, buffered + [n], n + 1)
    ensures buffered == [] ==> Ranked(written + [n], [], n + 1)
  {
  }

  /** Each frame is an alignment of the push it is attributed to. */
  ghost predicate Genuine(frames: seq<Samples>, ids: seq<nat>, pushes: seq<Samples>) {
    && |frames| == |ids|
    && forall i :: 0 <= i < |ids| ==> ids[i] < |pushes| && AlignedFrom(frames[i], pushes[ids[i]])
  }

  lemma GenuineSnoc(frames: seq<Samples>, ids: seq<nat>, pushes: seq<Samples>, f: Samples, id: nat)
    requires Genuine(frames, ids, pushes) && id < |pushes| && AlignedFrom(f, pushes[id])
    ensures Genuine(frames + [f], ids + [id], pushes)
  {
  }

  lemma GenuineTail(frames: seq<Samples>, ids: seq<nat>, pushes: seq<Samples>)
    requires Genuine(frames, ids, pushes) && frames != []
    ensures ids != [] && Genuine(frames[1..], ids[1..], pushes)
  {
  }

  lemma GenuineLater(frames: seq<Samples>, ids: seq<nat>, pushes: seq<Samples>, more: Samples)
    requires Genuine(frames, ids, pushes)
    ensures Genuine(frames, ids, pushes + [more])
  {
  }

  class Sink {
    const fails: nat -> bool
    var attempts: nat
    var log: seq<Samples>
    ghost var ids: seq<nat>

    /** No write fails. */
    ghost predicate Flawless() {
      forall n: nat :: !fails(n)
    }

    constructor (fails: nat -> bool)
      ensures log == [] && ids == [] && this.fails == fails
    {
      this.fails, attempts, log, ids := fails, 0, [], [];
    }

    method WriteFrame(frame: Samples, ghost id: nat) returns (failed: bool)
      modifies this
      ensures log == if failed then old(log) else old(log) + [frame]
      ensures ids == if failed then old(ids) else old(ids) + [id]
      ensures Flawless() ==> !failed
    {
      failed := fails(attempts);
      attempts := attempts + 1;
      if !failed {
        log := log + [frame];
        ids := ids + [id];
      }
    }
  }

  datatype Pending = Pending(timestamp: Stamp, pcm: Samples)

  /** The run so far: everything pushed, which push each buffered frame is, the timestamps since
      the last restart and the samples that pushes have written since. */
  datatype Trail = Trail(pushes: seq<Samples>, prefill: seq<nat>, stamps: seq<Stamp>, played: nat)

  class AudioPlayoutBuffer {
    const sink: Sink
    var pending: Option<Pending>
    var prefill: seq<Samples>
    var prefillSamples: nat
    var started: bool
    ghost var trail: Trail

    /** What is buffered is counted, bounded, and no longer than the clock has advanced. */
    ghost predicate Bounded()
      reads this
    {
      && prefillSamples == Total(prefill) <= MAX_GAP_SAMPLES
      && (started ==> prefill == [])
      && trail.played + prefillSamples <= Advance(trail.stamps)
      && (pending.None? ==> prefill == [])
      && (pending.Some? ==> trail.stamps != [] && trail.stamps[|trail.stamps| - 1] == pending.value.timestamp)
    }

    /** How many pushes are no longer pending. */
    ghost function Settled(): nat
      reads this
    {
      if pending.Some? && trail.pushes != [] then |trail.pushes| - 1 else |trail.pushes|
    }

    ghost predicate Tracked()
      reads this, sink
    {
      && Ranked(sink.ids, trail.prefill, Settled())
      && Genuine(sink.log, sink.ids, trail.pushes)
      && Genuine(prefill, trail.prefill, trail.pushes)
      && (pending.Some? ==> trail.pushes != [] && trail.pushes[|trail.pushes| - 1] == pending.value.pcm)
    }

    ghost predicate Valid()
      reads this, sink
    {
      Bounded() && Tracked()
    }

    constructor (sink: Sink)
      requires sink.log == [] && sink.ids == []
      ensures Valid() && this.sink == sink && trail == Trail([], [], [], 0)
      ensures pending == None && prefill == [] && !started
    {
      this.sink, pending, prefill, prefillSamples, started := sink, None, [], 0, false;
      trail := Trail([], [], [], 0);
    }

    /** The clock starts anew: with nothing pending, or when it stands still or jumps. */
    predicate Restarts(timestamp: Stamp)
      reads this
    {
      pending.None?
      || Delta(pending.value.timestamp, timestamp) == 0 || Delta(pending.value.timestamp, timestamp) > MAX_GAP_SAMPLES
    }

    /** The first frame of a run. */
    method Begin(timestamp: Stamp, frame: Samples)
      requires Valid() && pending.None?
      modifies this`pending, this`trail
      ensures Valid() && pending == Some(Pending(timestamp, frame))
      ensures trail == Trail(old(trail.pushes) + [frame], [], [timestamp], 0)
    {
      hide Ranked, Genuine;
      RankedClear(sink.ids, trail.prefill, Settled(), |trail.pushes|);
      GenuineLater(sink.log, sink.ids, trail.pushes, frame);
      NothingIsGenuine(trail.pushes + [frame]);
      pending := Some(Pending(timestamp, frame));
      trail := Trail(trail.pushes + [frame], [], [timestamp], 0);
    }

    /** A restart in the middle: what is buffered is dropped. */
    method Reset(timestamp: Stamp, frame: Samples)
      requires Valid()
      modifies this
      ensures Valid() && pending == Some(Pending(timestamp, frame)) && prefill == [] && !started
      ensures trail == Trail(old(trail.pushes) + [frame], [], [timestamp], 0)
    {
      hide Ranked, Genuine;
      RankedClear(sink.ids, trail.prefill, Settled(), |trail.pushes|);
      GenuineLater(sink.log, sink.ids, trail.pushes, frame);
      NothingIsGenuine(trail.pushes + [frame]);
      pending := Some(Pending(timestamp, frame));
      prefill, prefillSamples, started := [], 0, false;
      trail := Trail(trail.pushes + [frame], [], [timestamp], 0);
    }

    /** Stages the pending frame, aligned to the advance to the next timestamp, and takes the next
        frame in. */
    method Advanced(timestamp: Stamp, frame: Samples) returns (ready: Samples, ghost id: nat)
      requires Valid() && pending.Some?
      requires 0 < Delta(pending.value.timestamp, timestamp) <= MAX_GAP_SAMPLES
      modifies this`pending, this`trail
      ensures Valid() && pending == Some(Pending(timestamp, frame))
      ensures trail == old(trail).(pushes := old(trail.pushes) + [frame], stamps := old(trail.stamps) + [timestamp])
      ensures id == |trail.pushes| - 2 && Ranked(sink.ids, trail.prefill, id)
      ensures ready == Align(old(pending.value.pcm), Delta(old(pending.value.timestamp), timestamp))
      ensures AlignedFrom(ready, trail.pushes[id]) && |ready| <= MAX_GAP_SAMPLES
      ensures trail.played + prefillSamples + |ready| <= Advance(trail.stamps)
    {
      hide Ranked, Genuine;
      id := Settled();
      var delta := Delta(pending.value.timestamp, timestamp);
      ready := Align(pending.value.pcm, delta);
      RankedClear(sink.ids, trail.prefill, id, id + 1);
      GenuineLater(sink.log, sink.ids, trail.pushes, frame);
      GenuineLater(prefill, trail.prefill, trail.pushes, frame);
      AdvanceSnoc(trail.stamps, timestamp);
      hide Advance;
      pending := Some(Pending(timestamp, frame));
      trail := trail.(pushes := trail.pushes + [frame], stamps := trail.stamps + [timestamp]);
    }

    /** Appends to the prefill and drops from its front what exceeds the gap limit. */
    method Buffer(ready: Samples, ghost id: nat)
      requires Valid() && pending.Some? && !started
      requires id + 1 == Settled() && Ranked(sink.ids, trail.prefill, id)
      requires AlignedFrom(ready, trail.pushes[id]) && |ready| <= MAX_GAP_SAMPLES
      requires trail.played + prefillSamples + |ready| <= Advance(trail.stamps)
      modifies this`prefill, this`prefillSamples, this`trail
      ensures Valid() && trail == old(trail).(prefill := trail.prefill)
      ensures prefill == Trim(old(prefill) + [ready])
    {
      hide Ranked, Genuine, Advance, AlignedFrom;
      RankedNext(sink.ids, trail.prefill, id);
      GenuineSnoc(prefill, trail.prefill, trail.pushes, ready, id);
      TotalSnoc(prefill, ready);
      prefill := prefill + [ready];
      trail := trail.(prefill := trail.prefill + [id]);
      prefillSamples := prefillSamples + |ready|;
      while prefillSamples > MAX_GAP_SAMPLES && |prefill| > 1
        invariant |prefill| > 0 && prefillSamples == Total(prefill)
        invariant prefill[|prefill| - 1] == ready && Trim(prefill) == Trim(old(prefill) + [ready])
        invariant trail.played + prefillSamples <= Advance(trail.stamps)
        invariant Tracked() && trail == old(trail).(prefill := trail.prefill)
        decreases |prefill|
      {
        GenuineTail(prefill, trail.prefill, trail.pushes);
        RankedDrop(sink.ids, trail.prefill, Settled());
        prefillSamples := prefillSamples - |prefill[0]|;
        prefill := prefill[1..];
        trail := trail.(prefill := trail.prefill[1..]);
      }
    }

    /** Writes the prefill out, stopping at the first failure; nothing is lost by it. */
    method WritePrefill() returns (failed: bool)
      requires Valid() && pending.Some? && !started
      modifies this`prefill, this`prefillSamples, this`trail, sink
      ensures Valid() && (failed || prefill == [])
      ensures Splits(old(sink.log + prefill), sink.log, prefill) && old(sink.log) <= sink.log
      ensures trail == old(trail).(prefill := trail.prefill, played := trail.played)
      ensures trail.played + prefillSamples == old(trail.played + prefillSamples)
      ensures sink.Flawless() ==> !failed
    {
      hide Ranked, Genuine, Advance, AlignedFrom, Total, Splits, Sink.Flawless;
      failed := false;
      ghost var all := sink.log + prefill;
      SplitAt(sink.log, prefill);
      while |prefill| > 0 && !failed
        invariant Valid()
        invariant Splits(all, sink.log, prefill) && old(sink.log) <= sink.log
        invariant trail == old(trail).(prefill := trail.prefill, played := trail.played)
        invariant trail.played + prefillSamples == old(trail.played + prefillSamples)
        invariant sink.Flawless() ==> !failed
        decreases |prefill|, !failed
      {
        assert prefill == [prefill[0]] + prefill[1..];
        SplitMoves(all, sink.log, [prefill[0]], prefill[1..]);
        failed := WriteFirst();
      }
    }

    /** One frame of the prefill. */
    method WriteFirst() returns (failed: bool)
      requires Valid() && pending.Some? && prefill != []
      modifies this`prefill, this`prefillSamples, this`trail, sink
      ensures Valid()
      ensures if failed then sink.log == old(sink.log) && prefill == old(prefill)
              else sink.log == old(sink.log) + [old(prefill)[0]] && prefill == old(prefill)[1..]
      ensures trail == old(trail).(prefill := trail.prefill, played := trail.played)
      ensures trail.played + prefillSamples == old(trail.played + prefillSamples)
      ensures sink.Flawless() ==> !failed
    {
      hide Ranked, Genuine, Advance, AlignedFrom, Total, Sink.Flawless;
      GenuineTail(prefill, trail.prefill, trail.pushes);
      RankedWrite(sink.ids, trail.prefill, Settled());
      GenuineHead(prefill, trail.prefill, trail.pushes, sink.log, sink.ids);
      failed := sink.WriteFrame(prefill[0], trail.prefill[0]);
      if !failed {
        TakeFirst();
      }
    }

    /** Takes a frame just written out of the prefill. */
    method TakeFirst()
      requires Bounded() && prefill != [] && pending.Some? && trail.prefill != []
      requires Ranked(sink.ids, trail.prefill[1..], Settled())
      requires Genuine(sink.log, sink.ids, trail.pushes) && Genuine(prefill[1..], trail.prefill[1..], trail.pushes)
      requires trail.pushes != [] && trail.pushes[|trail.pushes| - 1] == pending.value.pcm
      modifies this`prefill, this`prefillSamples, this`trail
      ensures Valid() && prefill == old(prefill)[1..]
      ensures trail == old(trail).(prefill := trail.prefill, played := trail.played)
      ensures trail.played + prefillSamples == old(trail.played + prefillSamples)
    {
      assert Total(prefill) == |prefill[0]| + Total(prefill[1..]);
      hide Ranked, Genuine, Advance, AlignedFrom, Total;
      var buffered := prefill[0];
      prefillSamples := prefillSamples - |buffered|;
      prefill := prefill[1..];
      trail := trail.(prefill := trail.prefill[1..], played := trail.played + |buffered|);
    }

    /** Once started, a frame goes straight to the sink; a failed write loses it. */
    method WriteThrough(ready: Samples, ghost id: nat) returns (failed: bool)
      requires Valid() && pending.Some? && started
      requires id + 1 == Settled() && Ranked(sink.ids, trail.prefill, id)
      requires AlignedFrom(ready, trail.pushes[id])
      requires trail.played + prefillSamples + |ready| <= Advance(trail.stamps)
      modifies this`trail, sink
      ensures Valid()
      ensures sink.log == if failed then old(sink.log) else old(sink.log) + [ready]
      ensures trail == old(trail).(played := if failed then old(trail).played else old(trail).played + |ready|)
      ensures sink.Flawless() ==> !failed
    {
      hide Ranked, Genuine, Advance, AlignedFrom, Total, Sink.Flawless;
      NoneBuffered(prefill, trail.prefill, trail.pushes);
      RankedNext(sink.ids, trail.prefill, id);
      GenuineSnoc(sink.log, sink.ids, trail.pushes, ready, id);
      failed := sink.WriteFrame(ready, id);
      if !failed {
        CountPlayed(|ready|);
      }
    }

    ghost method CountPlayed(n: nat)
      requires Valid() && trail.played + prefillSamples + n <= Advance(trail.stamps)
      modifies this`trail
      ensures Valid() && trail == old(trail).(played := old(trail).played + n)
    {
      hide Ranked, Genuine, Advance, AlignedFrom, Total;
      trail := trail.(played := trail.played + n);
    }

    /** Prefilling: the playout starts once two frames' worth is buffered and written. */
    method Fill(ready: Samples, ghost id: nat, attached: bool) returns (startedNow: bool, failed: bool)
      requires Valid() && pending.Some? && !started
      requires id + 1 == Settled() && Ranked(sink.ids, trail.prefill, id)
      requires AlignedFrom(ready, trail.pushes[id]) && |ready| <= MAX_GAP_SAMPLES
      requires trail.played + prefillSamples + |ready| <= Advance(trail.stamps)
      modifies this`prefill, this`prefillSamples, this`trail, this`started, sink
      ensures Valid() && startedNow == started && (startedNow ==> attached)
      ensures trail == old(trail).(prefill := trail.prefill, played := trail.played)
      ensures Total(sink.log) + old(trail.played) == Total(old(sink.log)) + trail.played && old(sink.log) <= sink.log
      ensures startedNow ==> Total(sink.log) >= Total(old(sink.log)) + PREFILL_SAMPLES
      ensures Filled(attached, failed, old(sink.log), Trim(old(prefill) + [ready]))
      ensures sink.Flawless() ==> !failed
    {
      hide Ranked, Genuine, Advance, AlignedFrom, Trim, Sink.Flawless;
      Buffer(ready, id);
      SplitAt(sink.log, prefill);
      if !attached || prefillSamples < PREFILL_SAMPLES {
        return false, false;
      }
      TotalConcat(sink.log, prefill);
      failed := WritePrefill();
      TotalConcat(sink.log, prefill);
      hide Total;
      assert sink.log + [] == sink.log;
      started := !failed;
      startedNow := started;
    }

    /** What prefilling leaves: the kept frames are partly written and partly buffered, all written
        if enough of them are there, a sink is attached and no write fails. */
    ghost predicate Filled(attached: bool, failed: bool, log: seq<Samples>, kept: seq<Samples>)
      reads this, sink
    {
      && Splits(log + kept, sink.log, prefill)
      && (!attached || Total(kept) < PREFILL_SAMPLES ==> sink.log == log && !failed && !started)
      && (attached && Total(kept) >= PREFILL_SAMPLES ==> started == !failed && (failed || prefill == []))
    }

    method Push(timestamp: Stamp, frame: Samples, attached: bool) returns (startedNow: bool, failed: bool)
      requires Valid()
      modifies this, sink
      ensures Valid() && pending == Some(Pending(timestamp, frame)) && trail.pushes == old(trail.pushes) + [frame]
      ensures startedNow ==> !old(started) && started && Total(sink.log) >= Total(old(sink.log)) + PREFILL_SAMPLES
      ensures old(Restarts(timestamp)) ==> sink.log == old(sink.log) && trail.stamps == [timestamp] && trail.played == 0
      ensures !old(Restarts(timestamp)) ==>
                trail.stamps == old(trail.stamps) + [timestamp]
                && Total(sink.log) + old(trail.played) == Total(old(sink.log)) + trail.played
                && old(sink.log) <= sink.log
      ensures old(Restarts(timestamp)) ==> prefill == []
      ensures old(Restarts(timestamp)) ==> started == (old(started) && old(pending).None?)
      ensures !old(Restarts(timestamp)) ==>
                var ready := Align(old(pending.value.pcm), Delta(old(pending.value.timestamp), timestamp));
                if old(started) && attached then
                  started && prefill == [] && sink.log == old(sink.log) + if failed then [] else [ready]
                else
                  Filled(attached, failed, old(sink.log), Trim(old(prefill) + [ready]))
      ensures sink.Flawless() ==> !failed
    {
      hide Ranked, Genuine, Advance, AlignedFrom, Total, Trim, Splits, Sink.Flawless;
      startedNow, failed := false, false;
      if pending.None? {
        Begin(timestamp, frame);
      } else if Restarts(timestamp) {
        Reset(timestamp, frame);
      } else {
        var ready, id := Advanced(timestamp, frame);
        if started && attached {
          TotalSnoc(sink.log, ready);
          failed := WriteThrough(ready, id);
        } else {
          started := false;
          startedNow, failed := Fill(ready, id, attached);
        }
      }
    }

    /** The last frame, unaligned, once the playout has started. */
    method Flush(attached: bool) returns (failed: bool)
      requires Valid()
      modifies this, sink
      ensures Valid() && trail.pushes == old(trail.pushes)
      ensures !old(started) || old(pending).None? || !attached ==>
                sink.log == old(sink.log) && pending == old(pending) && prefill == old(prefill) && !failed
      ensures old(started) && old(pending).Some? && attached ==>
                pending == None
                && sink.log == if failed then old(sink.log) else old(sink.log) + [old(pending).value.pcm]
      ensures sink.Flawless() ==> !failed
    {
      hide Ranked, Genuine, Advance, AlignedFrom, Total, Sink.Flawless;
      if !started || pending.None? || !attached {
        return false;
      }
      failed := WritePending();
    }

    method WritePending() returns (failed: bool)
      requires Valid() && started && pending.Some?
      modifies this`pending, sink
      ensures Valid() && pending == None
      ensures sink.log == if failed then old(sink.log) else old(sink.log) + [old(pending).value.pcm]
      ensures sink.Flawless() ==> !failed
    {
      hide Ranked, Genuine, Advance, AlignedFrom, Total, Sink.Flawless;
      ghost var id := Settled();
      var last := pending.value.pcm;
      NoneBuffered(prefill, trail.prefill, trail.pushes);
      RankedNext(sink.ids, trail.prefill, id);
      RankedClear(sink.ids, trail.prefill, id, id + 1);
      WholeIsAligned(last);
      GenuineSnoc(sink.log, sink.ids, trail.pushes, last, id);
      assert prefill == [] && trail.prefill == [];
      failed := sink.WriteFrame(last, id);
      pending := None;
      assert Settled() == id + 1;
    }

    /** The frames held: the prefill, then the pending one. */
    ghost function Held(): seq<Samples>
      reads this
    {
      if pending.Some? then prefill + [pending.value.pcm] else prefill
    }

    /** Everything held goes out in order until a write fails; the buffer is left empty. */
    method Drain(attached: bool) returns (failed: bool, ghost written: nat)
      requires Valid()
      modifies this, sink
      ensures Valid() && pending == None && prefill == [] && !started && trail.pushes == old(trail.pushes)
      ensures written <= |old(Held())| && sink.log == old(sink.log) + old(Held())[..written]
      ensures if attached then failed <==> written < |old(Held())| else !failed && written == 0
      ensures sink.Flawless() ==> !failed
    {
      hide Ranked, Genuine, Advance, AlignedFrom, Sink.Flawless;
      var frames := prefill;
      ghost var ids, n := trail.prefill, |trail.pushes|;
      RankedClear(sink.ids, ids, Settled(), n);
      if pending.Some? {
        RankedNext(sink.ids, ids, n - 1);
        WholeIsAligned(pending.value.pcm);
        GenuineSnoc(frames, ids, trail.pushes, pending.value.pcm, n - 1);
        frames := frames + [pending.value.pcm];
        ids := ids + [n - 1];
      }
      assert frames == old(Held());
      pending, prefill, prefillSamples, started := None, [], 0, false;
      trail := trail.(prefill := [], stamps := [], played := 0);
      NothingIsGenuine(trail.pushes);
      AdvanceOfNothing();
      failed, written := false, 0;
      if attached {
        failed, written := WriteFrames(frames, ids, n);
      }
      RankedClear(sink.ids, [], n, n);
    }

    method WriteFrames(frames: seq<Samples>, ghost ids: seq<nat>, ghost n: nat)
      returns (failed: bool, ghost written: nat)
      requires Genuine(frames, ids, trail.pushes) && Ranked(sink.ids, ids, n)
      requires Genuine(sink.log, sink.ids, trail.pushes)
      modifies sink
      ensures Genuine(sink.log, sink.ids, trail.pushes) && Ranked(sink.ids, [], n)
      ensures written <= |frames| && sink.log == old(sink.log) + frames[..written] && failed == (written < |frames|)
      ensures sink.Flawless() ==> !failed
    {
      hide Ranked, Genuine, Sink.Flawless;
      var k := 0;
      ghost var left := ids;
      failed, written := false, 0;
      while k < |frames| && !failed
        invariant k <= |frames| && written == (if failed then k - 1 else k) && (failed ==> k > 0)
        invariant Genuine(frames[k..], left, trail.pushes) && Ranked(sink.ids, left, n)
        invariant Genuine(sink.log, sink.ids, trail.pushes)
        invariant sink.log == old(sink.log) + frames[..written]
        invariant sink.Flawless() ==> !failed
        decreases |frames| - k, !failed
      {
        GenuineTail(frames[k..], left, trail.pushes);
        RankedDrop(sink.ids, left, n);
        RankedWrite(sink.ids, left, n);
        GenuineHead(frames[k..], left, trail.pushes, sink.log, sink.ids);
        assert frames[k..][1..] == frames[k + 1..] && frames[..k] + [frames[k]] == frames[..k + 1];
        failed := sink.WriteFrame(frames[k], left[0]);
        k, left := k + 1, left[1..];
        written := if failed then k - 1 else k;
      }
      RankedClear(sink.ids, left, n, n);
    }
  }

  lemma AdvanceOfNothing()
    ensures Advance([]) == 0
  {
  }

  lemma NoneBuffered(frames: seq<Samples>, ids: seq<nat>, pushes: seq<Samples>)
    requires Genuine(frames, ids, pushes)
    ensures frames == [] <==> ids == []
  {
  }

  lemma {:induction false} TotalConcat(a: seq<Samples>, b: seq<Samples>)
    ensures Total(a + b) == Total(a) + Total(b)
  {
    if a == [] {
      assert a + b == b;
    } else {
      assert (a + b)[1..] == a[1..] + b;
      TotalConcat(a[1..], b);
    }
  }

  lemma NothingIsGenuine(pushes: seq<Samples>)
    ensures Genuine([], [], pushes)
  {
  }

  lemma GenuineHead(frames: seq<Samples>, ids: seq<nat>, pushes: seq<Samples>, log: seq<Samples>, logged: seq<nat>)
    requires Genuine(frames, ids, pushes) && frames != [] && Genuine(log, logged, pushes)
    ensures ids != [] && Genuine(log + [frames[0]], logged + [ids[0]], pushes)
  {
  }

  // ----- whole runs -----

  datatype Op =
    | Pushing(timestamp: Stamp, frame: Samples, attached: bool)
    | Flushing(attached: bool)
    | Draining(attached: bool)

  function Pushed(ops: seq<Op>): seq<Samples> {
    if ops == [] then []
    else
      var op := ops[|ops| - 1];
      Pushed(ops[..|ops| - 1]) + if op.Pushing? then [op.frame] else []
  }

  lemma PushedSnoc(ops: seq<Op>, op: Op)
    ensures Pushed(ops + [op]) == Pushed(ops) + if op.Pushing? then [op.frame] else []
  {
    assert (ops + [op])[..|ops|] == ops;
  }

  /** What reaches a sink is some of the pushed frames, aligned, in push order, none twice. */
  ghost predicate PlayedInOrder(log: seq<Samples>, pushes: seq<Samples>) {
    exists ids: seq<nat> :: Ranked(ids, [], |pushes|) && Genuine(log, ids, pushes)
  }

  /** Any run of pushes, flushes and drains, with any writes failing. */
  method PlayAll(ops: seq<Op>, fails: nat -> bool)
    returns (log: seq<Samples>, buffered: seq<Samples>, samples: nat, started: bool)
    ensures PlayedInOrder(log, Pushed(ops))
    ensures samples == Total(buffered) <= MAX_GAP_SAMPLES && (started ==> buffered == [])
  {
    hide Ranked, Genuine, Advance, AlignedFrom, Total;
    var sink := new Sink(fails);
    var p := new AudioPlayoutBuffer(sink);
    for i := 0 to |ops|
      invariant fresh(sink) && fresh(p) && p.sink == sink && p.Valid()
      invariant p.trail.pushes == Pushed(ops[..i])
    {
      PushedSnoc(ops[..i], ops[i]);
      assert ops[..i] + [ops[i]] == ops[..i + 1];
      match ops[i]
      case Pushing(timestamp, frame, attached) =>
        var _, _ := p.Push(timestamp, frame, attached);
      case Flushing(attached) =>
        var _ := p.Flush(attached);
      case Draining(attached) =>
        var _, _ := p.Drain(attached);
    }
    assert ops[..|ops|] == ops;
    RankedClear(sink.ids, p.trail.prefill, p.Settled(), |p.trail.pushes|);
    log, buffered, samples, started := sink.log, p.prefill, p.prefillSamples, p.started;
  }

  datatype Input = Input(timestamp: Stamp, frame: Samples, attached: bool)

  /** No timestamp after the first makes the clock start anew. */
  ghost predicate Unbroken(inputs: seq<Input>) {
    forall i :: 0 < i < |inputs| ==> 0 < Delta(inputs[i - 1].timestamp, inputs[i].timestamp) <= MAX_GAP_SAMPLES
  }

  function Stamps(inputs: seq<Input>): (s: seq<Stamp>)
    ensures |s| == |inputs|
  {
    seq(|inputs|, i requires 0 <= i < |inputs| => inputs[i].timestamp)
  }

  /** In any reachable buffer, from a push that starts the clock anew on: what is written, with any
      writes failing, plus what is buffered, never exceeds the clock's advance. */
  method RunPushes(p: AudioPlayoutBuffer, inputs: seq<Input>)
    requires p.Valid() && inputs != [] && p.Restarts(inputs[0].timestamp) && Unbroken(inputs)
    modifies p, p.sink
    ensures p.Valid() && old(p.sink.log) <= p.sink.log
    ensures Total(p.sink.log) - Total(old(p.sink.log)) + p.prefillSamples <= Advance(Stamps(inputs))
  {
    hide Ranked, Genuine, Advance, AlignedFrom, Total, Align, Trim, Splits;
    var _, _ := p.Push(inputs[0].timestamp, inputs[0].frame, inputs[0].attached);
    assert Stamps(inputs[..1]) == [inputs[0].timestamp];
    for i := 1 to |inputs|
      invariant p.Valid() && old(p.sink.log) <= p.sink.log
      invariant p.pending.Some? && p.pending.value.timestamp == inputs[i - 1].timestamp
      invariant p.trail.stamps == Stamps(inputs[..i])
      invariant Total(p.sink.log) == Total(old(p.sink.log)) + p.trail.played
    {
      assert Stamps(inputs[..i]) + [inputs[i].timestamp] == Stamps(inputs[..i + 1]);
      var _, _ := p.Push(inputs[i].timestamp, inputs[i].frame, inputs[i].attached);
    }
    assert inputs[..|inputs|] == inputs;
  }

  /** The same from the beginning of a stream. */
  method PlayStream(inputs: seq<Input>, fails: nat -> bool) returns (log: seq<Samples>, buffered: nat)
    requires Unbroken(inputs)
    ensures Total(log) + buffered <= Advance(Stamps(inputs))
  {
    var sink := new Sink(fails);
    var p := new AudioPlayoutBuffer(sink);
    if inputs != [] {
      RunPushes(p, inputs);
    }
    log, buffered := sink.log, p.prefillSamples;
  }
}
