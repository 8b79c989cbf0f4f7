/**
  What a listener hears of several speakers: the clamped sum of their samples, chunk by chunk, for as
  long as each has a whole chunk to give.
 */
module AudioMixing {
  import opened Common
  import opened AudioMixer

  function Distance(x: real, y: real): real {
    if x < y then y - x else x - y
  }

  /** Clamping gives the nearest sample between -1 and 1. */
  lemma ClampIsNearest(x: real, y: real)
    requires -1.0 <= y <= 1.0
    ensures -1.0 <= Clamp(x) <= 1.0 && Distance(x, Clamp(x)) <= Distance(x, y)
  {
  }

  datatype Speaker = Speaker(id: string, pcm: Samples)

  /** Different participants, each with some audio that fits its queue. */
  ghost predicate Speakers(speakers: seq<Speaker>) {
    && (forall i :: 0 <= i < |speakers| ==> speakers[i].id != "" && 0 < |speakers[i].pcm| <= MAX_SAMPLES)
    && (forall i, j :: 0 <= i < j < |speakers| ==> speakers[i].id != speakers[j].id)
  }

  /** A speaker with at least 1920 samples is heard for as many whole chunks as it has; one with less
      is never heard. */
  predicate Heard(s: Speaker, k: nat) {
    |s.pcm| >= PREFILL && CHUNK * (k + 1) <= |s.pcm|
  }

  /** The sum of the speakers' i-th samples of chunk k, over those heard. */
  function Voices(speakers: seq<Speaker>, k: nat, i: nat): real
    requires i < CHUNK
  {
    if speakers == [] then 0.0
    else
      var n := |speakers| - 1;
      Voices(speakers[..n], k, i) + if Heard(speakers[n], k) then speakers[n].pcm[CHUNK * k + i] else 0.0
  }

  /** Chunk k: nothing if nobody is heard, and otherwise the clamped sum. */
  ghost predicate IsChunk(speakers: seq<Speaker>, k: nat, chunk: Option<Samples>) {
    && (chunk.None? <==> forall j :: 0 <= j < |speakers| ==> !Heard(speakers[j], k))
    && (chunk.Some? ==>
          && |chunk.value| == CHUNK
          && forall i :: 0 <= i < CHUNK ==> chunk.value[i] == Clamp(Voices(speakers, k, i)))
  }

  // ----- the queues in between -----

  /** A speaker's queue after k chunks. */
  function QueueAt(s: Speaker, k: nat): Queue {
    if |s.pcm| < PREFILL then Queue(s.pcm, false)
    else if CHUNK * k <= |s.pcm| then Queue(s.pcm[CHUNK * k..], k > 0)
    else Queue(s.pcm[|s.pcm| - |s.pcm| % CHUNK..], false)
  }

  lemma WholeChunks(n: nat, k: nat)
    ensures CHUNK * k <= n < CHUNK * (k + 1) ==> n - n % CHUNK == CHUNK * k
    ensures CHUNK * k > n ==> n % CHUNK < CHUNK && CHUNK * (k + 1) > n
  {
    if CHUNK * k <= n < CHUNK * (k + 1) {
      QuotientIsUnique(n, CHUNK, k, n - CHUNK * k);
    }
  }

  lemma QueueSteps(s: Speaker, k: nat)
    ensures Contributes(QueueAt(s, k)) <==> Heard(s, k)
    ensures Heard(s, k) ==> QueueAt(s, k).pending[..CHUNK] == s.pcm[CHUNK * k..CHUNK * k + CHUNK]
    ensures AfterMix(QueueAt(s, k)) == QueueAt(s, k + 1)
  {
    WholeChunks(|s.pcm|, k);
  }

  /** The mixer has exactly these speakers' queues after k chunks. */
  ghost predicate Holds(m: Mixer, speakers: seq<Speaker>, k: nat) {
    && !m.rosterApplied
    && (forall id :: id in m.streams ==> exists j :: 0 <= j < |speakers| && speakers[j].id == id)
    && (forall j :: 0 <= j < |speakers| ==>
          speakers[j].id in m.streams && m.streams[speakers[j].id] == QueueAt(speakers[j], k))
  }

  lemma HoldsNext(m: Mixer, speakers: seq<Speaker>, k: nat)
    requires Holds(m, speakers, k)
    ensures Holds(m.AfterMixing(), speakers, k + 1)
    ensures forall j :: 0 <= j < |speakers| ==> (speakers[j].id in m.Contributors() <==> Heard(speakers[j], k))
    ensures m.Contributors() == {} <==> forall j :: 0 <= j < |speakers| ==> !Heard(speakers[j], k)
  {
    hide Contributes, AfterMix, QueueAt, Heard;
    forall j | 0 <= j < |speakers|
      ensures AfterMix(QueueAt(speakers[j], k)) == QueueAt(speakers[j], k + 1)
      ensures Contributes(QueueAt(speakers[j], k)) <==> Heard(speakers[j], k)
    {
      QueueSteps(speakers[j], k);
    }
    if x :| x in m.Contributors() {
      var j :| 0 <= j < |speakers| && speakers[j].id == x;
      assert Heard(speakers[j], k);
    }
  }

  /** The contributors among the first n speakers. */
  ghost function Among(m: Mixer, speakers: seq<Speaker>, n: nat): set<string>
    requires n <= |speakers|
  {
    set j | 0 <= j < n && speakers[j].id in m.Contributors() :: speakers[j].id
  }

  lemma AmongSteps(m: Mixer, speakers: seq<Speaker>, n: nat)
    requires Speakers(speakers) && 0 < n <= |speakers|
    ensures var id, before, all := speakers[n - 1].id, Among(m, speakers, n - 1), Among(m, speakers, n);
            && all <= m.Contributors() && before <= all && id !in before
            && (if id in m.Contributors() then id in all && all - {id} == before else all == before)
  {
    var id, before, all := speakers[n - 1].id, Among(m, speakers, n - 1), Among(m, speakers, n);
    assert forall x :: x in all <==> x in before || (x == id && id in m.Contributors());
  }

  lemma HeadIsHeard(s: Speaker, k: nat, i: nat)
    requires Heard(s, k) && i < CHUNK
    ensures i < |QueueAt(s, k).pending| && QueueAt(s, k).pending[i] == s.pcm[CHUNK * k + i]
  {
    QueueSteps(s, k);
    assert QueueAt(s, k).pending[i] == QueueAt(s, k).pending[..CHUNK][i];
  }

  lemma {:induction false} VoicesAreTheSum(m: Mixer, speakers: seq<Speaker>, n: nat, k: nat, i: nat)
    requires Speakers(speakers) && Holds(m, speakers, k) && n <= |speakers| && i < CHUNK
    ensures Among(m, speakers, n) <= m.Contributors()
    ensures SumAt(m.streams, Among(m, speakers, n), i) == Voices(speakers[..n], k, i)
  {
    HoldsNext(m, speakers, k);
    if n == 0 {
      assert Among(m, speakers, 0) == {};
    } else {
      var s, all := speakers[n - 1], Among(m, speakers, n);
      VoicesAreTheSum(m, speakers, n - 1, k, i);
      assert speakers[..n][..n - 1] == speakers[..n - 1] && speakers[..n][n - 1] == s;
      AmongSteps(m, speakers, n);
      assert forall x :: x in all ==> x in m.streams && i < |m.streams[x].pending|;
      hide Among, Holds, QueueAt, Contributes;
      if Heard(s, k) {
        SumTakesAny(m.streams, all, i, s.id);
        HeadIsHeard(s, k, i);
        HoldsQueue(m, speakers, k, n - 1);
      }
    }
  }

  lemma HoldsQueue(m: Mixer, speakers: seq<Speaker>, k: nat, j: nat)
    requires Holds(m, speakers, k) && j < |speakers|
    ensures speakers[j].id in m.streams && m.streams[speakers[j].id] == QueueAt(speakers[j], k)
  {
  }

  lemma MixIsChunk(m: Mixer, speakers: seq<Speaker>, k: nat, chunk: Option<Samples>)
    requires Speakers(speakers) && Holds(m, speakers, k)
    requires chunk.None? <==> m.Contributors() == {}
    requires chunk.Some? ==> IsMix(m, chunk.value)
    ensures IsChunk(speakers, k, chunk)
  {
    HoldsNext(m, speakers, k);
    if chunk.Some? {
      assert Among(m, speakers, |speakers|) == m.Contributors();
      assert speakers[..|speakers|] == speakers;
      forall i | 0 <= i < CHUNK ensures chunk.value[i] == Clamp(Voices(speakers, k, i)) {
        VoicesAreTheSum(m, speakers, |speakers|, k, i);
      }
    }
  }

  // ----- the mixer played -----

  function Order(speakers: seq<Speaker>): (ids: seq<string>)
    ensures |ids| == |speakers| && forall j :: 0 <= j < |ids| ==> ids[j] == speakers[j].id
  {
    seq(|speakers|, j requires 0 <= j < |speakers| => speakers[j].id)
  }

  lemma FirstFeed(m: Mixer, s: Speaker)
    requires !m.rosterApplied && s.id != "" && 0 < |s.pcm| <= MAX_SAMPLES && s.id !in m.streams
    ensures m.AfterAdd(s.id, s.pcm) == m.(streams := m.streams[s.id := QueueAt(s, 0)])
  {
    assert [] + s.pcm == s.pcm && s.pcm[0..] == s.pcm;
  }

  lemma HoldsFed(m: Mixer, speakers: seq<Speaker>, j: nat)
    requires Speakers(speakers) && j < |speakers| && Holds(m, speakers[..j], 0)
    ensures Holds(m.AfterAdd(speakers[j].id, speakers[j].pcm), speakers[..j + 1], 0)
  {
    hide QueueAt, Mixer.AfterAdd;
    var s, front, all := speakers[j], speakers[..j], speakers[..j + 1];
    assert all[j] == s && forall i :: 0 <= i < j ==> all[i] == front[i] == speakers[i];
    assert s.id !in m.streams;
    FirstFeed(m, s);
    forall id | id in m.streams ensures exists i :: 0 <= i < |all| && all[i].id == id {
      var i :| 0 <= i < |front| && front[i].id == id;
      assert all[i].id == id;
    }
  }

  method FeedAll(speakers: seq<Speaker>) returns (mixer: ParticipantAudioMixer)
    requires Speakers(speakers)
    ensures fresh(mixer) && mixer.View().Sound() && Holds(mixer.View(), speakers, 0)
  {
    mixer := new ParticipantAudioMixer();
    hide QueueAt;
    for j := 0 to |speakers|
      invariant fresh(mixer) && mixer.View().Sound() && Holds(mixer.View(), speakers[..j], 0)
    {
      HoldsFed(mixer.View(), speakers, j);
      var added := mixer.Add(speakers[j].id, speakers[j].pcm);
    }
    assert speakers[..|speakers|] == speakers;
  }

  /** Speakers who have each sent some audio: every chunk of the mix is the clamped sum of the next
      samples of all that were prefilled and still have a whole chunk. */
  method MixSpeakers(speakers: seq<Speaker>, n: nat) returns (chunks: seq<Option<Samples>>)
    requires Speakers(speakers)
    ensures |chunks| == n && forall k :: 0 <= k < n ==> IsChunk(speakers, k, chunks[k])
  {
    hide QueueAt, Heard, Contributes, AfterMix, IsChunk, IsMix;
    var mixer := FeedAll(speakers);
    chunks := [];
    for k := 0 to n
      invariant fresh(mixer) && mixer.View().Sound() && Holds(mixer.View(), speakers, k)
      invariant |chunks| == k && forall j :: 0 <= j < k ==> IsChunk(speakers, j, chunks[j])
    {
      ghost var m := mixer.View();
      HoldsNext(m, speakers, k);
      assert forall id :: id in Order(speakers) <==> id in mixer.streams by {
        assert forall j :: 0 <= j < |speakers| ==> Order(speakers)[j] == speakers[j].id;
      }
      var chunk := mixer.MixChunk(Order(speakers));
      MixIsChunk(m, speakers, k, chunk);
      chunks := chunks + [chunk];
    }
  }

  // ----- after running dry -----

  /** A participant not heard in a chunk is heard again only once two frames' worth of its samples
      wait, whatever is sent or retained in between. */
  lemma {:induction false} PrefillsAgain(ops: seq<MixerOp>, more: seq<MixerOp>, id: string)
    requires id !in RunMixer(ops).Contributors() && forall i :: 0 <= i < |more| ==> !more[i].Mixing?
    ensures var m := RunMixer(ops + [Mixing] + more);
            && (id in m.streams ==> !m.streams[id].started)
            && (id in m.Contributors() ==> |m.streams[id].pending| >= 1920)
    decreases |more|
  {
    var all := ops + [Mixing] + more;
    if more == [] {
      assert all == ops + [Mixing] && all[..|ops|] == ops;
    } else {
      PrefillsAgain(ops, more[..|more| - 1], id);
      assert all[..|all| - 1] == ops + [Mixing] + more[..|more| - 1];
    }
  }
}
