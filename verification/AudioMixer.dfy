/**
  The participant mixer: one bounded queue per participant, chunks of 160 samples mixed from the
  queues that have started, and a framer that turns chunks into 960-sample frames.
 */
module AudioMixer {
  import opened Common

  const CHUNK := 160
  const FRAME_SAMPLES := 960
  const PREFILL := 1920
  const MAX_SAMPLES := 3840

  type Samples = seq<real>

  datatype Queue = Queue(pending: Samples, started: bool)

  /** The last n samples, or all of them if there are fewer. */
  function Last(s: Samples, n: nat): Samples {
    if |s| <= n then s else s[|s| - n..]
  }

  lemma LastIsNewest(s: Samples, n: nat)
    ensures |Last(s, n)| == if |s| <= n then |s| else n
    ensures forall i :: 0 <= i < |Last(s, n)| ==> Last(s, n)[i] == s[|s| - |Last(s, n)| + i]
  {
  }

  /** Whether a queue gives its head to the next chunk. */
  predicate Contributes(q: Queue) {
    (q.started || |q.pending| >= PREFILL) && |q.pending| >= CHUNK
  }

  function AfterMix(q: Queue): Queue {
    if Contributes(q) then Queue(q.pending[CHUNK..], true)
    else Queue(q.pending, false)
  }

  datatype Mixer = Mixer(streams: map<string, Queue>, allowed: set<string>, rosterApplied: bool) {

    predicate Accepts(id: string, pcm: Samples) {
      id != "" && pcm != [] && (rosterApplied ==> id in allowed)
    }

    function Waiting(id: string): Queue {
      if id in streams then streams[id] else Queue([], false)
    }

    /** Append, and keep the newest samples. */
    function AfterAdd(id: string, pcm: Samples): Mixer {
      if !Accepts(id, pcm) then this
      else this.(streams := streams[id := Waiting(id).(pending := Last(Waiting(id).pending + pcm, MAX_SAMPLES))])
    }

    function AfterRetain(ids: set<string>): Mixer {
      var kept := ids - {""};
      Mixer(map id | id in streams && id in kept :: streams[id], kept, true)
    }

    function AfterMixing(): Mixer {
      this.(streams := map id | id in streams :: AfterMix(streams[id]))
    }

    function Contributors(): set<string> {
      set id | id in streams && Contributes(streams[id])
    }

    /** Queues are bounded, and once a roster is applied only its members have one. */
    ghost predicate Sound() {
      && (forall id :: id in streams ==> id != "" && |streams[id].pending| <= MAX_SAMPLES)
      && (rosterApplied ==> streams.Keys <= allowed)
    }
  }

  /** The sum of the i-th samples of a set of queues. */
  ghost function SumAt(streams: map<string, Queue>, ids: set<string>, i: nat): real
    requires ids <= streams.Keys && forall id :: id in ids ==> i < |streams[id].pending|
    decreases |ids|
  {
    if ids == {} then 0.0
    else
      var id :| id in ids;
      streams[id].pending[i] + SumAt(streams, ids - {id}, i)
  }

  /** The sum does not depend on the order of summation. */
  lemma {:induction false} SumTakesAny(streams: map<string, Queue>, ids: set<string>, i: nat, id: string)
    requires ids <= streams.Keys && forall x :: x in ids ==> i < |streams[x].pending|
    requires id in ids
    ensures SumAt(streams, ids, i) == streams[id].pending[i] + SumAt(streams, ids - {id}, i)
    decreases |ids|
  {
    var first :| first in ids && SumAt(streams, ids, i) == streams[first].pending[i] + SumAt(streams, ids - {first}, i);
    if first != id {
      SumTakesAny(streams, ids - {first}, i, id);
      SumTakesAny(streams, ids - {id}, i, first);
      assert ids - {first} - {id} == ids - {id} - {first};
    }
  }

  function Clamp(x: real): real {
    if x > 1.0 then 1.0 else if x < -1.0 then -1.0 else x
  }

  /** The chunk a mixer yields: the clamped sum of the heads of all contributing queues. */
  ghost predicate IsMix(m: Mixer, chunk: Samples) {
    && |chunk| == CHUNK
    && forall i :: 0 <= i < CHUNK ==> chunk[i] == Clamp(SumAt(m.streams, m.Contributors(), i))
  }

  class ParticipantAudioMixer {
    var streams: map<string, Queue>
    var allowed: set<string>
    var rosterApplied: bool

    ghost function View(): Mixer
      reads this
    {
      Mixer(streams, allowed, rosterApplied)
    }

    constructor ()
      ensures View() == Mixer(map[], {}, false)
    {
      streams, allowed, rosterApplied := map[], {}, false;
    }

    method Add(participantID: string, pcm: Samples) returns (added: bool)
      requires View().Sound()
      modifies this`streams
      ensures View() == old(View()).AfterAdd(participantID, pcm) && View().Sound()
      ensures added == old(View()).Accepts(participantID, pcm)
    {
      if participantID == "" || |pcm| == 0 {
        return false;
      }
      if rosterApplied && participantID !in allowed {
        return false;
      }
      var queue := if participantID in streams then streams[participantID] else Queue([], false);
      if |pcm| >= MAX_SAMPLES {
        queue := queue.(pending := pcm[|pcm| - MAX_SAMPLES..]);
      } else {
        var overflow := |queue.pending| + |pcm| - MAX_SAMPLES;
        if overflow > 0 {
          queue := queue.(pending := queue.pending[overflow..]);
        }
        queue := queue.(pending := queue.pending + pcm);
      }
      assert queue.pending == Last(old(View()).Waiting(participantID).pending + pcm, MAX_SAMPLES);
      streams := streams[participantID := queue];
      added := true;
    }

    method Retain(participantIDs: seq<string>)
      requires View().Sound()
      modifies this
      ensures View() == old(View()).AfterRetain(set id | id in participantIDs) && View().Sound()
    {
      var kept: set<string> := {};
      for k := 0 to |participantIDs|
        invariant kept == (set id | id in participantIDs[..k]) - {""}
      {
        if participantIDs[k] != "" {
          kept := kept + {participantIDs[k]};
        }
      }
      assert participantIDs[..|participantIDs|] == participantIDs;
      allowed := kept;
      rosterApplied := true;
      streams := map id | id in streams && id in kept :: streams[id];
    }

    /** One participant's turn. */
    method MixOne(id: string, mixed: array<real>) returns (contributed: bool)
      requires id in streams && mixed.Length == CHUNK
      modifies this`streams, mixed
      ensures contributed == Contributes(old(streams)[id])
      ensures streams == old(streams)[id := AfterMix(old(streams)[id])]
      ensures forall i :: 0 <= i < CHUNK ==>
                mixed[i] == if contributed then old(mixed[i]) + old(streams)[id].pending[i] else old(mixed[i])
    {
      var queue := streams[id];
      if !queue.started {
        if |queue.pending| < PREFILL {
          streams := streams[id := queue];
          return false;
        }
        queue := queue.(started := true);
      }
      if |queue.pending| < CHUNK {
        streams := streams[id := queue.(started := false)];
        return false;
      }
      AddInto(mixed, queue.pending);
      streams := streams[id := queue.(pending := queue.pending[CHUNK..])];
      return true;
    }

    /** Every participant's turn, in any order. */
    method MixInto(order: seq<string>, mixed: array<real>) returns (contributed: bool)
      requires forall id :: id in order <==> id in streams
      requires forall i, j :: 0 <= i < j < |order| ==> order[i] != order[j]
      requires Sums(View(), {}, mixed[..])
      modifies this`streams, mixed
      ensures View() == old(View()).AfterMixing()
      ensures contributed == (old(View()).Contributors() != {})
      ensures Sums(old(View()), old(View()).Contributors(), mixed[..])
    {
      hide Sums, AfterMix, Contributes;
      ghost var before := View();
      ghost var given: set<string> := {};
      contributed := false;
      SumsCoverChunk(before, given, mixed[..]);
      for k := 0 to |order|
        invariant streams.Keys == before.streams.Keys
        invariant forall j :: 0 <= j < |order| ==>
                    streams[order[j]] == if j < k then AfterMix(before.streams[order[j]]) else before.streams[order[j]]
        invariant forall id :: id in given ==> id in before.streams
        invariant forall j :: 0 <= j < |order| ==>
                    (order[j] in given <==> j < k && Contributes(before.streams[order[j]]))
        invariant contributed == (given != {})
        invariant Sums(before, given, mixed[..])
      {
        ghost var sums := mixed[..];
        var gave := MixOne(order[k], mixed);
        if gave {
          SumGrows(before, given, order[k], sums, mixed[..]);
          given := given + {order[k]};
        } else {
          SumStays(before, given, sums, mixed[..]);
        }
        contributed := contributed || gave;
      }
      EveryoneMixed(before, order, given, streams);
    }

    /** Mixes the next chunk.  Neither the chunk nor the new queues depend on the order in which
        the participants are visited. */
    method MixChunk(order: seq<string>) returns (chunk: Option<Samples>)
      requires View().Sound()
      requires forall id :: id in order <==> id in streams
      requires forall i, j :: 0 <= i < j < |order| ==> order[i] != order[j]
      modifies this`streams
      ensures View() == old(View()).AfterMixing() && View().Sound()
      ensures chunk.None? <==> old(View()).Contributors() == {}
      ensures chunk.Some? ==> IsMix(old(View()), chunk.value)
    {
      var mixed := new real[CHUNK](_ => 0.0);
      var contributed := MixInto(order, mixed);
      if !contributed {
        return None;
      }
      ClampAll(mixed);
      chunk := Some(mixed[..]);
    }
  }

  lemma EveryoneMixed(m: Mixer, order: seq<string>, given: set<string>, streams: map<string, Queue>)
    requires (forall id :: id in order <==> id in m.streams) && streams.Keys == m.streams.Keys
    requires forall j :: 0 <= j < |order| ==> streams[order[j]] == AfterMix(m.streams[order[j]])
    requires forall id :: id in given ==> id in m.streams
    requires forall j :: 0 <= j < |order| ==> (order[j] in given <==> Contributes(m.streams[order[j]]))
    ensures given == m.Contributors() && streams == m.AfterMixing().streams
  {
    forall id | id in m.streams
      ensures streams[id] == AfterMix(m.streams[id]) && (id in given <==> Contributes(m.streams[id]))
    {
      var j :| 0 <= j < |order| && order[j] == id;
    }
  }

  ghost predicate Sums(m: Mixer, ids: set<string>, mixed: Samples) {
    && ids <= m.Contributors() && |mixed| == CHUNK
    && forall i :: 0 <= i < CHUNK ==> mixed[i] == SumAt(m.streams, ids, i)
  }

  lemma SumsCoverChunk(m: Mixer, ids: set<string>, mixed: Samples)
    requires Sums(m, ids, mixed)
    ensures |mixed| == CHUNK
  {
  }

  lemma SumStays(m: Mixer, ids: set<string>, sums: Samples, sums': Samples)
    requires Sums(m, ids, sums) && |sums| == |sums'| == CHUNK
    requires forall i :: 0 <= i < CHUNK ==> sums'[i] == sums[i]
    ensures Sums(m, ids, sums')
  {
  }

  lemma SumGrows(m: Mixer, ids: set<string>, id: string, sums: Samples, sums': Samples)
    requires Sums(m, ids, sums) && |sums| == CHUNK && id in m.Contributors() && id !in ids && |sums'| == CHUNK
    requires forall i :: 0 <= i < CHUNK ==> sums'[i] == sums[i] + m.streams[id].pending[i]
    ensures Sums(m, ids + {id}, sums')
  {
    forall i | 0 <= i < CHUNK
      ensures sums'[i] == SumAt(m.streams, ids + {id}, i)
    {
      SumTakesAny(m.streams, ids + {id}, i, id);
      assert ids + {id} - {id} == ids;
    }
  }

  method AddInto(mixed: array<real>, samples: Samples)
    requires mixed.Length <= |samples|
    modifies mixed
    ensures forall i :: 0 <= i < mixed.Length ==> mixed[i] == old(mixed[i]) + samples[i]
  {
    for k := 0 to mixed.Length
      invariant forall i :: 0 <= i < mixed.Length ==>
                  mixed[i] == if i < k then old(mixed[i]) + samples[i] else old(mixed[i])
    {
      mixed[k] := mixed[k] + samples[k];
    }
  }

  method ClampAll(mixed: array<real>)
    modifies mixed
    ensures forall i :: 0 <= i < mixed.Length ==> mixed[i] == Clamp(old(mixed[i]))
  {
    for k := 0 to mixed.Length
      invariant forall i :: 0 <= i < mixed.Length ==> mixed[i] == if i < k then Clamp(old(mixed[i])) else old(mixed[i])
    {
      if mixed[k] > 1.0 {
        mixed[k] := 1.0;
      } else if mixed[k] < -1.0 {
        mixed[k] := -1.0;
      }
    }
  }

  // ----- whole runs -----

  datatype MixerOp = Adding(id: string, pcm: Samples) | Retaining(ids: set<string>) | Mixing

  function RunMixer(ops: seq<MixerOp>): Mixer {
    if ops == [] then Mixer(map[], {}, false)
    else
      var m, op := RunMixer(ops[..|ops| - 1]), ops[|ops| - 1];
      match op
      case Adding(id, pcm) => m.AfterAdd(id, pcm)
      case Retaining(ids) => m.AfterRetain(ids)
      case Mixing => m.AfterMixing()
  }

  /** The last roster applied, if any. */
  function LastRoster(ops: seq<MixerOp>): Option<set<string>> {
    if ops == [] then None
    else if ops[|ops| - 1].Retaining? then Some(ops[|ops| - 1].ids)
    else LastRoster(ops[..|ops| - 1])
  }

  /** In every reachable state queues are bounded, and once a roster has been applied only the
      participants of the last one have a queue. */
  lemma {:induction false} OnlyRosterIsHeard(ops: seq<MixerOp>)
    ensures RunMixer(ops).Sound()
    ensures LastRoster(ops).Some? ==> RunMixer(ops).streams.Keys <= LastRoster(ops).value
    ensures RunMixer(ops).rosterApplied == LastRoster(ops).Some?
    ensures LastRoster(ops).Some? ==> RunMixer(ops).allowed == LastRoster(ops).value - {""}
  {
    if ops != [] {
      OnlyRosterIsHeard(ops[..|ops| - 1]);
    }
  }

  /** One participant's share of a run: its queue, the samples accepted from it, where in them each
      stretch heard begins, and what was lost to the bound, removed with its queue, or refused. */
  datatype History = History(
    queue: Queue, fed: Samples, starts: seq<int>, heard: seq<Samples>, lost: nat, removed: nat, refused: nat)

  function AfterFeed(h: History, pcm: Samples): History {
    var all := h.queue.pending + pcm;
    var last := Last(all, MAX_SAMPLES);
    h.(queue := h.queue.(pending := last), fed := h.fed + pcm, lost := h.lost + |all| - |last|)
  }

  function AfterTake(h: History): History {
    if Contributes(h.queue) then
      h.(queue := AfterMix(h.queue),
         starts := h.starts + [|h.fed| - |h.queue.pending|],
         heard := h.heard + [h.queue.pending[..CHUNK]])
    else
      h.(queue := AfterMix(h.queue))
  }

  function AfterRemoval(h: History): History {
    h.(queue := Queue([], false), removed := h.removed + |h.queue.pending|)
  }

  const NO_HISTORY := History(Queue([], false), [], [], [], 0, 0, 0)

  function HistoryOf(ops: seq<MixerOp>, id: string): History {
    if ops == [] then NO_HISTORY
    else
      var front := ops[..|ops| - 1];
      var h := HistoryOf(front, id);
      match ops[|ops| - 1]
      case Adding(to, pcm) =>
        if to != id then h
        else if RunMixer(front).Accepts(id, pcm) then AfterFeed(h, pcm)
        else h.(refused := h.refused + |pcm|)
      case Retaining(ids) => if id in ids - {""} then h else AfterRemoval(h)
      case Mixing => AfterTake(h)
  }

  /** How many samples were offered for a participant. */
  function Offered(ops: seq<MixerOp>, id: string): nat {
    if ops == [] then 0
    else
      var op := ops[|ops| - 1];
      Offered(ops[..|ops| - 1], id) + if op.Adding? && op.id == id then |op.pcm| else 0
  }

  /** The history's queue is the participant's queue in the mixer. */
  lemma {:induction false} HistoryIsTheMixers(ops: seq<MixerOp>, id: string)
    ensures HistoryOf(ops, id).queue == RunMixer(ops).Waiting(id)
  {
    if ops != [] {
      HistoryIsTheMixers(ops[..|ops| - 1], id);
    }
  }

  /** What a chunk adds to it is the head the mixer mixes in. */
  lemma HeardIsMixed(ops: seq<MixerOp>, id: string)
    ensures var m, h := RunMixer(ops), HistoryOf(ops, id);
            HistoryOf(ops + [Mixing], id).heard ==
            h.heard + if id in m.Contributors() then [m.streams[id].pending[..CHUNK]] else []
  {
    assert (ops + [Mixing])[..|ops|] == ops;
    HistoryIsTheMixers(ops, id);
  }

  ghost predicate Told(h: History) {
    && |h.queue.pending| <= |h.fed| && h.queue.pending == h.fed[|h.fed| - |h.queue.pending|..]
    && |h.starts| == |h.heard|
    && (forall i :: 0 <= i < |h.starts| ==>
          0 <= h.starts[i] && h.starts[i] + CHUNK <= |h.fed| - |h.queue.pending|
          && h.heard[i] == h.fed[h.starts[i]..h.starts[i] + CHUNK])
    && (forall i, j :: 0 <= i < j < |h.starts| ==> h.starts[i] + CHUNK <= h.starts[j])
    && h.lost + h.removed + CHUNK * |h.heard| + |h.queue.pending| == |h.fed|
  }

  /** Over any run of the mixer, what is heard of a participant are disjoint stretches of what was
      accepted from it, in order; what waits is the end of that; and every sample offered is heard,
      waiting, lost to the bound, removed with its queue, or refused. */
  lemma HeardInOrder(ops: seq<MixerOp>, id: string)
    ensures Told(HistoryOf(ops, id)) && HistoryOf(ops, id).queue == RunMixer(ops).Waiting(id)
    ensures var h := HistoryOf(ops, id);
            h.lost + h.removed + h.refused + CHUNK * |h.heard| + |RunMixer(ops).Waiting(id).pending| == Offered(ops, id)
  {
    HistoryIsTheMixers(ops, id);
    AllTold(ops, id);
  }

  lemma {:induction false} AllTold(ops: seq<MixerOp>, id: string)
    ensures Told(HistoryOf(ops, id))
    ensures |HistoryOf(ops, id).fed| + HistoryOf(ops, id).refused == Offered(ops, id)
  {
    hide Told;
    if ops == [] {
      NothingTold();
    } else {
      var h := HistoryOf(ops[..|ops| - 1], id);
      AllTold(ops[..|ops| - 1], id);
      match ops[|ops| - 1]
      case Adding(to, pcm) =>
        FeedTold(h, pcm);
      case Retaining(ids) => RemovalTold(h);
      case Mixing => TakeTold(h);
    }
  }

  lemma NothingTold()
    ensures Told(NO_HISTORY)
  {
  }

  lemma RemovalTold(h: History)
    requires Told(h)
    ensures Told(AfterRemoval(h))
  {
  }

  lemma FeedTold(h: History, pcm: Samples)
    requires Told(h)
    ensures Told(AfterFeed(h, pcm)) && Told(h.(refused := h.refused + |pcm|))
  {
    var fed := h.fed + pcm;
    assert forall i :: 0 <= i < |h.starts| ==>
      fed[h.starts[i]..h.starts[i] + CHUNK] == h.fed[h.starts[i]..h.starts[i] + CHUNK];
    var all := h.queue.pending + pcm;
    assert all == fed[|fed| - |all|..];
    var last := Last(all, MAX_SAMPLES);
    assert last == fed[|fed| - |last|..];
  }

  lemma TakeTold(h: History)
    requires Told(h)
    ensures Told(AfterTake(h))
  {
    if Contributes(h.queue) {
      var start := |h.fed| - |h.queue.pending|;
      assert h.queue.pending[..CHUNK] == h.fed[start..start + CHUNK];
      assert h.queue.pending[CHUNK..] == h.fed[start + CHUNK..];
    }
  }

  // ----- framing for the sink -----

  class SinkFramer {
    var pending: Samples

    constructor ()
      ensures pending == []
    {
      pending := [];
    }

    /** A chunk in; a frame out once 960 samples wait. */
    method Push(chunk: Samples) returns (frame: Option<Samples>)
      modifies this
      ensures frame.Some? <==> |old(pending) + chunk| >= FRAME_SAMPLES
      ensures frame.None? ==> pending == old(pending) + chunk
      ensures frame.Some? ==> |frame.value| == FRAME_SAMPLES && frame.value + pending == old(pending) + chunk
    {
      pending := pending + chunk;
      if |pending| < FRAME_SAMPLES {
        return None;
      }
      frame := Some(pending[..FRAME_SAMPLES]);
      pending := pending[FRAME_SAMPLES..];
    }
  }

  /** Frames and remainder are the chunks, and 160-sample chunks make a frame of every six. */
  method FrameChunks(chunks: seq<Samples>) returns (frames: seq<Samples>, rest: Samples)
    ensures Flatten(frames) + rest == Flatten(chunks)
    ensures forall i :: 0 <= i < |frames| ==> |frames[i]| == FRAME_SAMPLES
    ensures (forall i :: 0 <= i < |chunks| ==> |chunks[i]| == CHUNK) ==>
              |frames| == |chunks| / 6 && |rest| == CHUNK * (|chunks| % 6)
  {
    hide Splits;
    var framer := new SinkFramer();
    frames := [];
    SplitStarts<real>([]);
    for k := 0 to |chunks|
      invariant fresh(framer)
      invariant Splits(Flatten(chunks[..k]), Flatten(frames), framer.pending)
      invariant forall i :: 0 <= i < |frames| ==> |frames[i]| == FRAME_SAMPLES
      invariant (forall i :: 0 <= i < |chunks| ==> |chunks[i]| == CHUNK) ==>
                  |frames| == k / 6 && |framer.pending| == CHUNK * (k % 6)
    {
      FlattenSnoc(chunks[..k], chunks[k]);
      assert chunks[..k] + [chunks[k]] == chunks[..k + 1];
      SplitGrows(Flatten(chunks[..k]), Flatten(frames), framer.pending, chunks[k]);
      var frame := framer.Push(chunks[k]);
      if frame.Some? {
        SplitMoves(Flatten(chunks[..k + 1]), Flatten(frames), frame.value, framer.pending);
        FlattenSnoc(frames, frame.value);
        frames := frames + [frame.value];
      }
    }
    assert chunks[..|chunks|] == chunks;
    rest := framer.pending;
    SplitJoins(Flatten(chunks), Flatten(frames), rest);
  }
}
