/**
  Framing of decoded audio files.  A decoder is the list of what its successive calls yield; the
  framer pulls on it until a frame is full.  The WAV and Opus decoders are modelled down to their
  read loops.
 */
module AudioFraming {
  import opened Common
  import opened AudioSource

  /** What one call of the decoder does: push samples and go on, push the last samples and report
      whether a whole frame is pending, or fail.  A decoder with nothing left reports exhaustion. */
  datatype Chunk = Push(samples: Samples) | Tail(samples: Samples) | Failure

  function Content(c: Chunk): Samples {
    if c.Failure? then [] else c.samples
  }

  function Contents(script: seq<Chunk>): Samples {
    if script == [] then [] else Content(script[0]) + Contents(script[1..])
  }

  /** Nothing follows the last samples of a file. */
  ghost predicate Decoder(script: seq<Chunk>) {
    forall i :: 0 <= i < |script| && script[i].Tail? ==> i == |script| - 1
  }

  lemma {:induction false} ContentsSnoc(script: seq<Chunk>, c: Chunk)
    ensures Contents(script + [c]) == Contents(script) + Content(c)
  {
    if script == [] {
      assert script + [c] == [c];
    } else {
      assert (script + [c])[1..] == script[1..] + [c];
      ContentsSnoc(script[1..], c);
    }
  }

  lemma {:induction false} PullOne(pending: Samples, script: seq<Chunk>)
    requires script != []
    ensures pending + Contents(script) == (pending + Content(script[0])) + Contents(script[1..])
    ensures Decoder(script) ==> Decoder(script[1..])
  {
    var head, rest := Content(script[0]), Contents(script[1..]);
    assert Contents(script) == head + rest;
    hide *;
    assert pending + (head + rest) == (pending + head) + rest;
  }

  function Silence(n: nat): (z: Samples)
    ensures |z| == n
  {
    seq(n, _ => 0.0)
  }

  datatype Reading = Frame(samples: Samples) | EndOfStream | Broken

  class FrameSource {
    var script: seq<Chunk>
    var pending: Samples
    var done: bool

    ghost predicate Valid()
      reads this
    {
      Decoder(script) && (done ==> script == [])
    }

    /** Everything still to be framed. */
    ghost function Stream(): Samples
      reads this
    {
      pending + Contents(script)
    }

    constructor (script: seq<Chunk>)
      requires Decoder(script)
      ensures Valid() && Stream() == Contents(script) && this.script == script && !done && pending == []
    {
      this.script, pending, done := script, [], false;
    }

    /** Decodes the next chunk into pending. */
    method More() returns (ok: bool, failed: bool)
      requires Valid() && !done
      modifies this`script, this`pending
      ensures Valid() && Stream() == old(Stream())
      ensures if old(script) == [] then script == [] && !ok && !failed else |script| == |old(script)| - 1
      ensures !ok && !failed ==> script == []
    {
      if script == [] {
        return false, false;
      }
      var c := script[0];
      PullOne(pending, script);
      hide Contents;
      script := script[1..];
      pending := pending + Content(c);
      if c.Failure? {
        return false, true;
      }
      return c.Push? || |pending| >= FRAME_SAMPLES, false;
    }

    /** A frame takes the next 960 samples off the stream, padded with silence only where the
        stream ends; the end is reported forever; a failure loses nothing. */
    method ReadFrame() returns (r: Reading)
      requires Valid()
      modifies this
      ensures Valid() && |script| <= |old(script)|
      ensures r.Frame? ==> |r.samples| == FRAME_SAMPLES && old(Stream()) != []
      ensures r.Frame? && |old(Stream())| >= FRAME_SAMPLES ==> old(Stream()) == r.samples + Stream()
      ensures r.Frame? && |old(Stream())| < FRAME_SAMPLES ==>
                Stream() == [] && r.samples == old(Stream()) + Silence(FRAME_SAMPLES - |old(Stream())|)
      ensures r.EndOfStream? ==> old(Stream()) == [] == Stream() && done
      ensures old(done) && old(Stream()) == [] ==> r.EndOfStream?
      ensures r.Broken? ==> Stream() == old(Stream()) && |script| < |old(script)|
    {
      ghost var all := Stream();
      while |pending| < FRAME_SAMPLES && !done
        invariant Valid() && Stream() == all && |script| <= |old(script)|
        invariant old(done) ==> done
        decreases |script|, !done
      {
        var ok, failed := More();
        if failed {
          return Broken;
        }
        if !ok {
          done := true;
        }
      }
      if |pending| == 0 {
        return EndOfStream;
      }
      var n := if |pending| < FRAME_SAMPLES then |pending| else FRAME_SAMPLES;
      var frame := pending[..n] + Silence(FRAME_SAMPLES - n);
      pending := pending[n..];
      r := Frame(frame);
    }
  }

  function FrameCount(n: nat): nat {
    (n + FRAME_SAMPLES - 1) / FRAME_SAMPLES
  }

  /** A stream cut into frames, the last one padded. */
  function Framed(s: Samples): seq<Samples> {
    if s == [] then []
    else if |s| < FRAME_SAMPLES then [s + Silence(FRAME_SAMPLES - |s|)]
    else [s[..FRAME_SAMPLES]] + Framed(s[FRAME_SAMPLES..])
  }

  /** The frames are the stream plus less than a frame of silence. */
  lemma {:induction false} FramedExact(s: Samples)
    ensures |Framed(s)| == FrameCount(|s|)
    ensures forall i :: 0 <= i < |Framed(s)| ==> |Framed(s)[i]| == FRAME_SAMPLES
    ensures FrameCount(|s|) * FRAME_SAMPLES - FRAME_SAMPLES < |s| <= FrameCount(|s|) * FRAME_SAMPLES
    ensures Flatten(Framed(s)) == s + Silence(FrameCount(|s|) * FRAME_SAMPLES - |s|)
  {
    if s == [] {
      assert Silence(0) == [];
    } else if |s| >= FRAME_SAMPLES {
      FramedExact(s[FRAME_SAMPLES..]);
      assert s == s[..FRAME_SAMPLES] + s[FRAME_SAMPLES..];
    } else {
      var padded := s + Silence(FRAME_SAMPLES - |s|);
      assert Framed(s)[1..] == [];
      assert Flatten([padded]) == padded + Flatten([padded][1..]);
    }
  }

  /** Reading a file to its end, going on after failures. */
  method ReadAll(script: seq<Chunk>) returns (frames: seq<Samples>)
    requires Decoder(script)
    ensures frames == Framed(Contents(script))
  {
    var src := new FrameSource(script);
    frames := [];
    while true
      invariant fresh(src) && src.Valid()
      invariant frames + Framed(src.Stream()) == Framed(Contents(script))
      decreases |src.Stream()|, |src.script|
    {
      ghost var before := src.Stream();
      var r := src.ReadFrame();
      match r
      case EndOfStream =>
        return;
      case Broken =>
      case Frame(f) =>
        assert Framed(before) == [f] + Framed(src.Stream());
        frames := frames + [f];
    }
  }

  // ----- Opus -----

  datatype Packet = Decoded(samples: Samples) | Corrupt

  /** The decoded stream, without what cannot be decoded. */
  function Decodable(packets: seq<Packet>): Samples {
    if packets == [] then []
    else (if packets[0].Decoded? then packets[0].samples else []) + Decodable(packets[1..])
  }

  function Drop(s: Samples, n: nat): Samples {
    if n <= |s| then s[n..] else []
  }

  class OpusReader {
    var packets: seq<Packet>
    var skip: nat

    ghost function Stream(): Samples
      reads this
    {
      Drop(Decodable(packets), skip)
    }

    /** The pre-skip comes in samples of the 48 kHz codec clock. */
    constructor (packets: seq<Packet>, preSkip: nat)
      ensures this.packets == packets && skip == preSkip * SAMPLE_RATE / 48000
    {
      this.packets, skip := packets, preSkip * SAMPLE_RATE / 48000;
    }

    /** The next non-empty run of samples after the pre-skip, nothing at the end, or a failure. */
    method More() returns (c: Option<Chunk>)
      modifies this
      ensures c.None? ==> old(Stream()) == [] && packets == []
      ensures c.Some? ==> !c.value.Tail? && old(Stream()) == Content(c.value) + Stream() && |packets| < |old(packets)|
      ensures c.Some? && c.value.Push? ==> c.value.samples != []
    {
      ghost var all := Stream();
      while packets != []
        invariant Stream() == all && |packets| <= |old(packets)|
        decreases |packets|
      {
        var p := packets[0];
        ghost var rest := Decodable(packets[1..]);
        assert Decodable(packets) == (if p.Decoded? then p.samples else []) + rest;
        packets := packets[1..];
        if p.Corrupt? {
          return Some(Failure);
        }
        var samples := p.samples;
        if skip >= |samples| {
          skip := skip - |samples|;
        } else {
          assert Drop(p.samples + rest, skip) == p.samples[skip..] + rest;
          samples := samples[skip..];
          skip := 0;
          return Some(Push(samples));
        }
      }
      return None;
    }
  }

  /** An Opus file drops exactly the scaled pre-skip from the head of its stream. */
  method OpusScript(packets: seq<Packet>, preSkip: nat) returns (script: seq<Chunk>)
    ensures Decoder(script)
    ensures Contents(script) == Drop(Decodable(packets), preSkip * SAMPLE_RATE / 48000)
  {
    hide Decodable, Drop;
    var reader := new OpusReader(packets, preSkip);
    script := [];
    ghost var all := reader.Stream();
    while true
      invariant fresh(reader) && Contents(script) + reader.Stream() == all
      invariant forall i :: 0 <= i < |script| ==> !script[i].Tail?
      decreases |reader.packets|
    {
      var c := reader.More();
      if c.None? {
        return;
      }
      ContentsSnoc(script, c.value);
      assert (Contents(script) + Content(c.value)) + reader.Stream()
          == Contents(script) + (Content(c.value) + reader.Stream());
      script := script + [c.value];
    }
  }
}
