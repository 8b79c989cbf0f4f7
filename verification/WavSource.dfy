/**
  The WAV reader: 16-bit little-endian PCM, channels averaged, read in blocks of 8192 bytes of
  which each is trimmed to whole channel groups.
 */
module WavSource {
  import opened Common
  import opened AudioSource
  import opened AudioFraming

  /** The k-th signed 16-bit value. */
  function Sample16(b: Bytes, k: nat): int
    requires 2 * k + 1 < |b|
  {
    var v := b[2 * k] as int + 256 * b[2 * k + 1] as int;
    if v < 0x8000 then v else v - 0x1_0000
  }

  function ChannelSum(b: Bytes, c: nat): (s: int)
    requires 2 * c <= |b|
    ensures -0x8000 * c <= s <= 0x7fff * c
  {
    if c == 0 then 0 else ChannelSum(b, c - 1) + Sample16(b, c - 1)
  }

  function Mean(group: Bytes, channels: nat): real
    requires channels > 0 && |group| == 2 * channels
  {
    ChannelSum(group, channels) as real / channels as real / 32768.0
  }

  /** One sample per whole channel group; an incomplete last group is ignored. */
  function Mono(b: Bytes, channels: nat): Samples
    requires channels > 0
  {
    if |b| < 2 * channels then [] else [Mean(b[..2 * channels], channels)] + Mono(b[2 * channels..], channels)
  }

  lemma GroupsLeft(n: nat, size: nat)
    requires 0 < size <= n
    ensures (n - size) % size == n % size
  {
    var q := n / size;
    assert n == q * size + n % size;
    assert (q - 1) * size == q * size - size;
    QuotientIsUnique(n - size, size, q - 1, n % size);
  }

  /** The largest multiple of a group's size within n bytes. */
  function Whole(n: nat, size: nat): (m: nat)
    requires size > 0
    ensures m <= n < m + size
  {
    n - n % size
  }

  lemma WholePart(n: nat, size: nat)
    requires size > 0
    ensures Whole(n, size) % size == 0
  {
    var q := n / size;
    assert n == q * size + n % size;
    QuotientIsUnique(q * size, size, q, 0);
  }

  /** Whole groups in front can be converted on their own. */
  lemma {:induction false} MonoSplits(a: Bytes, b: Bytes, channels: nat)
    requires channels > 0 && |a| % (2 * channels) == 0
    ensures Mono(a + b, channels) == Mono(a, channels) + Mono(b, channels)
    decreases |a|
  {
    if a == [] {
      assert a + b == b;
    } else {
      var size := 2 * channels;
      if |a| < size {
        QuotientIsUnique(|a|, size, 0, |a|);
      }
      GroupsLeft(|a|, size);
      assert (a + b)[..size] == a[..size] && (a + b)[size..] == a[size..] + b;
      MonoSplits(a[size..], b, channels);
    }
  }

  /** The first channel group; its sum stays within 32 bits for any 16-bit channel count. */
  method GroupMean(b: Bytes, channels: nat) returns (mean: real)
    requires 0 < channels < 0x1_0000 && 2 * channels <= |b|
    ensures mean == Mean(b[..2 * channels], channels)
  {
    var acc, c := 0, 0;
    while c < channels
      invariant c <= channels && acc == ChannelSum(b[..2 * channels], c) && -0x8000_0000 <= acc < 0x8000_0000
    {
      acc := acc + Sample16(b, c);
      c := c + 1;
    }
    mean := acc as real / channels as real / 32768.0;
  }

  method WavMono(b: Bytes, channels: nat) returns (out: Samples)
    requires 0 < channels < 0x1_0000
    ensures out == Mono(b, channels)
  {
    out := [];
    var off := 0;
    assert b[0..] == b;
    while off + 2 * channels <= |b|
      invariant off <= |b|
      invariant out + Mono(b[off..], channels) == Mono(b, channels)
    {
      assert b[off..][2 * channels..] == b[off + 2 * channels..];
      var mean := GroupMean(b[off..], channels);
      out := out + [mean];
      off := off + 2 * channels;
    }
  }

  // ----- what the bytes mean -----

  /** A signed 16-bit value in two's complement, low byte first. */
  function Pcm16(v: int): (b: Bytes)
    requires -0x8000 <= v <= 0x7fff
    ensures |b| == 2
  {
    var u := if v < 0 then v + 0x1_0000 else v;
    [(u % 256) as Byte, (u / 256) as Byte]
  }

  /** One instant: a value per channel. */
  type Instant = seq<int>

  predicate Has16Bits(frame: Instant, channels: nat) {
    |frame| == channels && forall c :: 0 <= c < channels ==> -0x8000 <= frame[c] <= 0x7fff
  }

  function PcmFrame(frame: Instant): (b: Bytes)
    requires forall c :: 0 <= c < |frame| ==> -0x8000 <= frame[c] <= 0x7fff
    ensures |b| == 2 * |frame|
  {
    if frame == [] then [] else PcmFrame(frame[..|frame| - 1]) + Pcm16(frame[|frame| - 1])
  }

  function Sum(frame: Instant): int {
    if frame == [] then 0 else Sum(frame[..|frame| - 1]) + frame[|frame| - 1]
  }

  function Pcm(frames: seq<Instant>, channels: nat): Bytes
    requires forall i :: 0 <= i < |frames| ==> Has16Bits(frames[i], channels)
  {
    if frames == [] then []
    else
      assert Has16Bits(frames[0], channels);
      PcmFrame(frames[0]) + Pcm(frames[1..], channels)
  }

  lemma Pcm16Means(v: int)
    requires -0x8000 <= v <= 0x7fff
    ensures Sample16(Pcm16(v), 0) == v
  {
  }

  lemma {:induction false} ChannelSumPrefix(a: Bytes, b: Bytes, c: nat)
    requires 2 * c <= |a|
    ensures ChannelSum(a + b, c) == ChannelSum(a, c)
  {
    if c > 0 {
      ChannelSumPrefix(a, b, c - 1);
    }
  }

  lemma {:induction false} FrameMeans(frame: Instant)
    requires forall c :: 0 <= c < |frame| ==> -0x8000 <= frame[c] <= 0x7fff
    ensures ChannelSum(PcmFrame(frame), |frame|) == Sum(frame)
  {
    if frame != [] {
      var front, v := frame[..|frame| - 1], frame[|frame| - 1];
      FrameMeans(front);
      ChannelSumPrefix(PcmFrame(front), Pcm16(v), |front|);
      Pcm16Means(v);
      hide Pcm16;
    }
  }

  /** What was written as interleaved 16-bit samples is read as the channels' mean, full scale being
      one. */
  lemma {:induction false} PcmIsAveraged(frames: seq<Instant>, channels: nat)
    requires channels > 0 && forall i :: 0 <= i < |frames| ==> Has16Bits(frames[i], channels)
    ensures var mono := Mono(Pcm(frames, channels), channels);
            |mono| == |frames| &&
            forall i :: 0 <= i < |frames| ==> mono[i] == Sum(frames[i]) as real / (channels as real * 32768.0)
  {
    if frames != [] {
      var first, rest := PcmFrame(frames[0]), Pcm(frames[1..], channels);
      PcmIsAveraged(frames[1..], channels);
      FrameMeans(frames[0]);
      Scaled(Sum(frames[0]) as real, channels as real);
      assert (first + rest)[..2 * channels] == first && (first + rest)[2 * channels..] == rest;
      hide PcmFrame, ChannelSum, Sum;
    }
  }

  lemma Scaled(sum: real, channels: real)
    requires channels > 0.0
    ensures sum / channels / 32768.0 == sum / (channels * 32768.0)
  {
  }

  // ----- blocks -----

  function Trimmed(b: Bytes, channels: nat): (t: Bytes)
    requires channels > 0
  {
    b[..Whole(|b|, 2 * channels)]
  }

  /** The bytes that survive: every block of 8192 is trimmed on its own, and a block without a
      whole group ends the file. */
  function Kept(data: Bytes, channels: nat): Bytes
    requires channels > 0
  {
    if |data| < READ_BYTES then Trimmed(data, channels)
    else
      var block := Trimmed(data[..READ_BYTES], channels);
      if block == [] then [] else block + Kept(data[READ_BYTES..], channels)
  }

  lemma TrimmedIsWhole(b: Bytes, channels: nat)
    requires channels > 0
    ensures |Trimmed(b, channels)| % (2 * channels) == 0
    ensures Mono(Trimmed(b, channels), channels) == Mono(b, channels)
  {
    WholePart(|b|, 2 * channels);
    var n := Whole(|b|, 2 * channels);
    MonoSplits(b[..n], b[n..], channels);
    assert b[..n] + b[n..] == b;
  }

  class WavReader {
    const channels: nat
    const res: DownmixResampler
    var rest: Bytes

    ghost predicate Valid()
      reads this, res
    {
      0 < channels < 0x1_0000 && res.Valid()
    }

    /** The samples still to come. */
    ghost function Left(): Samples
      reads this
      requires channels > 0
    {
      Mono(Kept(rest, channels), channels)
    }

    constructor (data: Bytes, rate: nat, channels: nat)
      requires rate > 0 && 0 < channels < 0x1_0000
      ensures Valid() && rest == data && this.channels == channels && fresh(res) && res.inRate == rate && res.seen == []
    {
      this.channels, rest := channels, data;
      res := new DownmixResampler(rate);
    }

    /** Reads one block: its samples go through the resampler; a short block is the last. */
    method More() returns (c: Option<Chunk>, ghost mono: Samples)
      requires Valid()
      modifies this`rest, res
      ensures Valid()
      ensures res.seen == old(res.seen) + mono
      ensures c.None? ==> old(Left()) == [] == mono
      ensures c.Some? ==> !c.value.Failure? && |rest| < |old(rest)|
                          && old(Left()) == mono + Left()
                          && Resampled(res.seen, res.inRate) == Resampled(old(res.seen), res.inRate) + c.value.samples
                          && (c.value.Tail? ==> Left() == [])
    {
      NothingKept(channels);
      hide Mono, Kept, Resampled;
      if |rest| == 0 {
        return None, [];
      }
      var n := if |rest| < READ_BYTES then |rest| else READ_BYTES;
      var buf := Trimmed(rest[..n], channels);
      KeptStep(rest, channels);
      if |buf| == 0 {
        return None, [];
      }
      rest := rest[n..];
      var collapsed := WavMono(buf, channels);
      var out := res.Process(collapsed);
      mono := collapsed;
      c := Some(if n < READ_BYTES then Tail(out) else Push(out));
    }
  }

  /** The reader's calls, one after the other, for a whole data chunk. */
  method WavScript(data: Bytes, rate: nat, channels: nat) returns (script: seq<Chunk>)
    requires rate > 0 && 0 < channels < 0x1_0000
    ensures Decoder(script)
    ensures Contents(script) == Resampled(Mono(Kept(data, channels), channels), rate)
  {
    EmptyResamplesToNothing(rate);
    hide Mono, Kept, Resampled, Contents, Splits;
    var reader := new WavReader(data, rate, channels);
    script := [];
    ghost var all := reader.Left();
    SplitStarts(all);
    while true
      invariant fresh(reader) && fresh(reader.res) && reader.Valid() && reader.res.inRate == rate
      invariant forall i :: 0 <= i < |script| ==> script[i].Push?
      invariant Contents(script) == Resampled(reader.res.seen, rate)
      invariant Splits(all, reader.res.seen, reader.Left())
      decreases |reader.rest|
    {
      ghost var seen := reader.res.seen;
      var c, mono := reader.More();
      if c.None? {
        SplitEnds(all, seen);
        return;
      }
      SplitMoves(all, seen, mono, reader.Left());
      ContentsSnoc(script, c.value);
      script := script + [c.value];
      if c.value.Tail? {
        SplitEnds(all, reader.res.seen);
        return;
      }
    }
  }

  lemma EmptyResamplesToNothing(rate: nat)
    requires rate > 0
    ensures Resampled([], rate) == [] == Contents([])
  {
  }

  lemma NothingKept(channels: nat)
    requires channels > 0
    ensures Mono(Kept([], channels), channels) == []
  {
  }

  lemma KeptStep(data: Bytes, channels: nat)
    requires channels > 0 && data != []
    ensures var n := if |data| < READ_BYTES then |data| else READ_BYTES;
            var block := Trimmed(data[..n], channels);
            && Mono(Kept(data, channels), channels) ==
                 Mono(block, channels)
                 + (if n < READ_BYTES || block == [] then [] else Mono(Kept(data[n..], channels), channels))
            && (block == [] ==> Mono(block, channels) == [])
  {
    if |data| < READ_BYTES {
      assert data[..|data|] == data;
    } else {
      TrimmedIsWhole(data[..READ_BYTES], channels);
      MonoSplits(Trimmed(data[..READ_BYTES], channels), Kept(data[READ_BYTES..], channels), channels);
    }
  }

  /** From the bytes of a WAV file to its frames. */
  method PlayWav(data: Bytes, rate: nat, channels: nat) returns (frames: seq<Samples>)
    requires rate > 0 && 0 < channels < 0x1_0000
    ensures frames == Framed(Resampled(Mono(Kept(data, channels), channels), rate))
    ensures 4096 % channels == 0 ==> frames == Framed(Resampled(Mono(data, channels), rate))
  {
    var script := WavScript(data, rate, channels);
    frames := ReadAll(script);
    if 4096 % channels == 0 {
      EvenBlocksLoseNothing(data, channels);
    }
  }

  lemma EvenGroups(channels: nat)
    requires channels > 0
    ensures 4096 % channels == 0 <==> READ_BYTES % (2 * channels) == 0
  {
    var q, r := 4096 / channels, 4096 % channels;
    assert 4096 == q * channels + r;
    assert READ_BYTES == q * (2 * channels) + 2 * r;
    QuotientIsUnique(READ_BYTES, 2 * channels, q, 2 * r);
  }

  lemma {:induction false} EvenBlocksLoseNothing(data: Bytes, channels: nat)
    requires channels > 0 && 4096 % channels == 0
    ensures Mono(Kept(data, channels), channels) == Mono(data, channels)
    decreases |data|
  {
    if |data| < READ_BYTES {
      TrimmedIsWhole(data, channels);
    } else {
      EvenGroups(channels);
      var block, rest := data[..READ_BYTES], data[READ_BYTES..];
      assert Trimmed(block, channels) == block && data == block + rest;
      EvenBlocksLoseNothing(rest, channels);
      MonoSplits(block, Kept(rest, channels), channels);
      MonoSplits(block, rest, channels);
    }
  }

  // ----- exactly when trimming the blocks loses nothing -----

  lemma WholesApart(m: nat, n: nat, size: nat)
    requires size > 0 && Whole(m, size) < Whole(n, size)
    ensures Whole(m, size) + size <= Whole(n, size)
  {
    var q, q' := m / size, n / size;
    assert Whole(m, size) == q * size && Whole(n, size) == q' * size;
    if q' < q {
      ProductGrows(q', q, size);
    } else {
      ProductGrows(q, q', size);
    }
  }

  lemma WholesGrow(m: nat, n: nat, size: nat)
    requires size > 0 && m <= n
    ensures Whole(m, size) <= Whole(n, size)
  {
    if Whole(n, size) < Whole(m, size) {
      WholesApart(n, m, size);
    }
  }

  /** A file that ends before completing the group its first block cuts. */
  lemma ShortFilesLoseNothing(data: Bytes, channels: nat)
    requires channels > 0 && Whole(|data|, 2 * channels) <= Whole(READ_BYTES, 2 * channels)
    ensures Mono(Kept(data, channels), channels) == Mono(data, channels)
  {
    var size := 2 * channels;
    if |data| < READ_BYTES {
      TrimmedIsWhole(data, channels);
    } else {
      WholesGrow(READ_BYTES, |data|, size);
      var cut := Whole(READ_BYTES, size);
      var first := data[..READ_BYTES];
      var block, rest := Trimmed(first, channels), data[READ_BYTES..];
      TrimmedIsWhole(first, channels);
      assert block == data[..cut] && data == block + data[cut..];
      MonoSplits(block, data[cut..], channels);
      if block != [] {
        NoGroupIsKept(rest, channels);
        MonoSplits(block, Kept(rest, channels), channels);
      }
    }
  }

  lemma NoGroupIsKept(rest: Bytes, channels: nat)
    requires channels > 0 && |rest| < 2 * channels
    ensures Mono(Kept(rest, channels), channels) == []
  {
    QuotientIsUnique(|rest|, 2 * channels, 0, |rest|);
    if |rest| >= READ_BYTES {
      QuotientIsUnique(READ_BYTES, 2 * channels, 0, READ_BYTES);
    }
  }

  ghost predicate AllZero(b: Bytes) {
    forall i :: 0 <= i < |b| ==> b[i] == 0
  }

  lemma {:induction false} ZeroKept(b: Bytes, channels: nat)
    requires channels > 0 && AllZero(b)
    ensures AllZero(Kept(b, channels))
    decreases |b|
  {
    hide Whole;
    if |b| >= READ_BYTES {
      var block, rest := Trimmed(b[..READ_BYTES], channels), b[READ_BYTES..];
      assert AllZero(block) && AllZero(rest);
      ZeroKept(rest, channels);
      assert AllZero(block + Kept(rest, channels));
    } else {
      assert AllZero(Trimmed(b, channels));
    }
  }

  lemma {:induction false} ZeroSum(b: Bytes, c: nat)
    requires 2 * c <= |b| && AllZero(b)
    ensures ChannelSum(b, c) == 0
  {
    if c > 0 {
      ZeroSum(b, c - 1);
    }
  }

  lemma {:induction false} ZeroIsSilent(b: Bytes, channels: nat, i: nat)
    requires channels > 0 && AllZero(b) && i < |Mono(b, channels)|
    ensures Mono(b, channels)[i] == 0.0
    decreases |b|
  {
    if i == 0 {
      ZeroSum(b[..2 * channels], channels);
    } else {
      ZeroIsSilent(b[2 * channels..], channels, i - 1);
    }
  }

  lemma {:induction false} PulseSum(b: Bytes, c: nat)
    requires 0 < 2 * c <= |b| && b[0] == 1 && AllZero(b[1..])
    ensures ChannelSum(b, c) == 1
  {
    assert forall i :: 1 <= i < |b| ==> b[i] == b[1..][i - 1] == 0;
    if c > 1 {
      PulseSum(b, c - 1);
    } else {
      assert ChannelSum(b, 0) == 0;
    }
  }

  /** Silence with a pulse on the first byte that the first block drops. */
  function Pulse(n: nat, at: nat): (d: Bytes)
    ensures |d| == n
  {
    seq(n, i => if i == at then 1 else 0)
  }

  ghost predicate Lossless(data: Bytes, channels: nat)
    requires channels > 0
  {
    Mono(Kept(data, channels), channels) == Mono(data, channels)
  }

  lemma PulseMean(group: Bytes, channels: nat)
    requires channels > 0 && |group| == 2 * channels && group[0] == 1 && AllZero(group[1..])
    ensures Mean(group, channels) > 0.0
  {
    PulseSum(group, channels);
  }

  lemma PulseIsHeard(head: Bytes, tail: Bytes, channels: nat)
    requires channels > 0 && |head| % (2 * channels) == 0
    requires |tail| >= 2 * channels && tail[0] == 1 && AllZero(tail[1..])
    ensures var k := |Mono(head, channels)|;
            k < |Mono(head + tail, channels)| && Mono(head + tail, channels)[k] > 0.0
  {
    MonoSplits(head, tail, channels);
    var group := tail[..2 * channels];
    assert AllZero(group[1..]) by {
      assert forall i :: 0 <= i < |group| - 1 ==> group[1..][i] == tail[1..][i];
    }
    PulseMean(group, channels);
    hide Mean;
    assert Mono(tail, channels)[0] == Mean(group, channels);
  }

  lemma PulseIsLost(n: nat, channels: nat)
    requires channels > 0 && 4096 % channels != 0 && Whole(n, 2 * channels) > Whole(READ_BYTES, 2 * channels)
    ensures !Lossless(Pulse(n, Whole(READ_BYTES, 2 * channels)), channels)
  {
    EvenGroups(channels);
    var size := 2 * channels;
    var cut := Whole(READ_BYTES, size);
    var d := Pulse(n, cut);
    WholesApart(READ_BYTES, n, size);
    WholePart(READ_BYTES, size);
    assert cut < READ_BYTES < n;
    hide Whole;
    var head, tail := d[..cut], d[cut..];
    assert d == head + tail;
    PulseIsHeard(head, tail, channels);
    assert AllZero(Kept(d, channels)) by {
      ZeroKept(d[READ_BYTES..], channels);
      assert Trimmed(d[..READ_BYTES], channels) == head;
    }
    var k := |Mono(head, channels)|;
    if k < |Mono(Kept(d, channels), channels)| {
      ZeroIsSilent(Kept(d, channels), channels, k);
    }
  }

  /** Trimming block by block keeps every sample of every file of n bytes exactly when the channel
      count divides 4096, or the file ends before completing the group that the first block cuts. */
  lemma LosslessExactly(n: nat, channels: nat)
    requires channels > 0
    ensures (forall d: Bytes :: |d| == n ==> Lossless(d, channels))
            <==> (4096 % channels == 0 || Whole(n, 2 * channels) <= Whole(READ_BYTES, 2 * channels))
  {
    if 4096 % channels == 0 {
      forall d: Bytes | |d| == n ensures Lossless(d, channels) {
        EvenBlocksLoseNothing(d, channels);
      }
    } else if Whole(n, 2 * channels) <= Whole(READ_BYTES, 2 * channels) {
      forall d: Bytes | |d| == n ensures Lossless(d, channels) {
        ShortFilesLoseNothing(d, channels);
      }
    } else {
      hide Lossless;
      PulseIsLost(n, channels);
      assert |Pulse(n, Whole(READ_BYTES, 2 * channels))| == n;
    }
  }
}
