/**
  The RTP replay filter: per SSRC a ring of 1024 slots, a bitset of used slots beside it.  Merging
  several copies of one stream through it passes every packet once.
 */
module ReplayFilter {
  import opened Common

  const SLOTS := 1024
  const TWO16 := 0x1_0000

  datatype Packet = Packet(ssrc: nat, seqNo: nat)

  /** The latest packet of an SSRC in a slot, over a whole history. */
  function Latest(history: seq<Packet>, ssrc: nat, slot: nat): Option<nat> {
    if history == [] then None
    else
      var p := history[|history| - 1];
      if p.ssrc == ssrc && p.seqNo % SLOTS == slot then Some(p.seqNo)
      else Latest(history[..|history| - 1], ssrc, slot)
  }

  /** Seen already: the latest packet of that SSRC in that slot has this very sequence number. */
  predicate Repeats(history: seq<Packet>, p: Packet) {
    Latest(history, p.ssrc, p.seqNo % SLOTS) == Some(p.seqNo)
  }

  lemma LatestSnoc(history: seq<Packet>, p: Packet, ssrc: nat, slot: nat)
    ensures Latest(history + [p], ssrc, slot) ==
            if p.ssrc == ssrc && p.seqNo % SLOTS == slot then Some(p.seqNo) else Latest(history, ssrc, slot)
  {
    assert (history + [p])[..|history|] == history;
  }

  /** The packet came as number i, and no other one of its SSRC with the same remainder modulo 1024
      has come since. */
  ghost predicate CameAt(history: seq<Packet>, p: Packet, i: nat) {
    && i < |history| && history[i] == p
    && forall j :: i < j < |history| && history[j].ssrc == p.ssrc && history[j].seqNo % 1024 == p.seqNo % 1024 ==>
         history[j] == p
  }

  lemma {:induction false} RepeatsExactly(history: seq<Packet>, p: Packet)
    ensures Repeats(history, p) <==> exists i :: CameAt(history, p, i)
    decreases |history|
  {
    if history != [] {
      var n := |history| - 1;
      var front, last := history[..n], history[n];
      RepeatsExactly(front, p);
      if last == p {
        assert CameAt(history, p, n);
      } else if last.ssrc == p.ssrc && last.seqNo % 1024 == p.seqNo % 1024 {
        assert forall i :: CameAt(history, p, i) ==> i == n;
      } else {
        assert forall i :: CameAt(history, p, i) <==> CameAt(front, p, i);
      }
    }
  }

  // ----- the bitset -----

  function Mask(bit: bv6): bv64 {
    1 << bit
  }

  predicate Has(word: bv64, mask: bv64) {
    word & mask != 0
  }

  function With(word: bv64, mask: bv64): bv64 {
    word | mask
  }

  lemma MasksApart(bit: bv6, other: bv6)
    ensures Mask(bit) != 0 && (bit != other ==> Mask(bit) & Mask(other) == 0)
  {
  }

  lemma WithKeeps(word: bv64, mask: bv64, other: bv64)
    requires mask & other == 0
    ensures Has(With(word, mask), other) == Has(word, other)
  {
  }

  lemma WithSets(word: bv64, mask: bv64)
    requires mask != 0
    ensures Has(With(word, mask), mask)
  {
  }

  predicate Bit(word: bv64, bit: nat)
    requires bit < 64
  {
    Has(word, Mask(bit as bv6))
  }

  lemma SetBit(word: bv64, bit: nat, other: nat)
    requires bit < 64 && other < 64
    ensures Bit(With(word, Mask(bit as bv6)), other) == (other == bit || Bit(word, other))
  {
    hide Mask, Has, With;
    MasksApart(bit as bv6, other as bv6);
    if bit == other {
      WithSets(word, Mask(bit as bv6));
    } else {
      BitIndex(bit);
      BitIndex(other);
      WithKeeps(word, Mask(bit as bv6), Mask(other as bv6));
    }
  }

  lemma BitIndex(bit: nat)
    requires bit < 64
    ensures (bit as bv6) as nat == bit
  {
  }

  class ReplayRing {
    const seen: array<bv64>
    const seqNos: array<nat>
    var primed: bool

    ghost predicate Sized()
      reads this
    {
      seen.Length == SLOTS / 64 && seqNos.Length == SLOTS
    }

    /** What a slot holds. */
    ghost function Slot(t: nat): Option<nat>
      reads this, seen, seqNos
      requires Sized() && t < SLOTS
    {
      if Bit(seen[t / 64], t % 64) then Some(seqNos[t]) else None
    }

    ghost predicate Valid()
      reads this, seen, seqNos
    {
      Sized() && (!primed ==> forall t :: 0 <= t < SLOTS ==> Slot(t) == None)
    }

    constructor ()
      ensures Valid() && fresh(seen) && fresh(seqNos) && forall t :: 0 <= t < SLOTS ==> Slot(t) == None
    {
      seen := new bv64[SLOTS / 64](_ => 0);
      seqNos := new nat[SLOTS](_ => 0);
      primed := false;
    }

    method Duplicate(seqNo: nat) returns (dup: bool)
      requires Valid()
      modifies this`primed, seen, seqNos
      ensures Valid()
      ensures dup == (old(Slot(seqNo % SLOTS)) == Some(seqNo))
      ensures forall t :: 0 <= t < SLOTS ==> Slot(t) == if t == seqNo % SLOTS then Some(seqNo) else old(Slot(t))
    {
      hide Bit, With, Mask;
      var slot := seqNo % SLOTS;
      var word, bit := slot / 64, slot % 64;
      if primed && Bit(seen[word], bit) && seqNos[slot] == seqNo {
        return true;
      }
      ghost var before := seen[word];
      primed := true;
      seen[word] := With(seen[word], Mask(bit as bv6));
      seqNos[slot] := seqNo;
      forall t | 0 <= t < SLOTS
        ensures Slot(t) == if t == seqNo % SLOTS then Some(seqNo) else old(Slot(t))
      {
        SetBit(before, bit, t % 64);
      }
      dup := false;
    }
  }

  class RtpReplayFilter {
    var streams: map<nat, ReplayRing>
    /** Every packet seen so far. */
    ghost var history: seq<Packet>

    ghost predicate Apart()
      reads this
    {
      forall s, t :: s in streams && t in streams && s != t ==>
        streams[s] != streams[t] && streams[s].seen != streams[t].seen && streams[s].seqNos != streams[t].seqNos
    }

    ghost predicate Mirrors(ring: ReplayRing, ssrc: nat)
      reads this, ring, ring.seen, ring.seqNos
    {
      ring.Valid() && forall t :: 0 <= t < SLOTS ==> ring.Slot(t) == Latest(history, ssrc, t)
    }

    ghost function Repr(): set<object>
      reads this
    {
      (set s | s in streams :: streams[s]) + (set s | s in streams :: streams[s].seen)
      + (set s | s in streams :: streams[s].seqNos)
    }

    ghost predicate Valid()
      reads this, Repr()
    {
      && Apart()
      && (forall s :: s in streams ==> Mirrors(streams[s], s))
      && (forall p :: p in history ==> p.ssrc in streams)
    }

    constructor ()
      ensures Valid() && history == [] && streams == map[] && Repr() == {}
    {
      streams, history := map[], [];
    }

    method RingOf(ssrc: nat) returns (ring: ReplayRing)
      requires Valid()
      modifies this`streams
      ensures Valid() && ssrc in streams && streams[ssrc] == ring && fresh(Repr() - old(Repr()))
    {
      hide Latest;
      if ssrc !in streams {
        Unheard(history, ssrc);
        var created := new ReplayRing();
        streams := streams[ssrc := created];
      }
      ring := streams[ssrc];
    }

    /** Reports whether the latest earlier packet of the SSRC in the slot had this sequence number. */
    method Duplicate(ssrc: nat, seqNo: nat) returns (dup: bool)
      requires Valid()
      modifies this, Repr()
      ensures Valid() && history == old(history) + [Packet(ssrc, seqNo)]
      ensures dup == Repeats(old(history), Packet(ssrc, seqNo))
      ensures fresh(Repr() - old(Repr()))
    {
      hide Latest;
      var ring := RingOf(ssrc);
      dup := Record(ssrc, ring, seqNo);
    }

    method Record(ssrc: nat, ring: ReplayRing, seqNo: nat) returns (dup: bool)
      requires Valid() && ssrc in streams && streams[ssrc] == ring
      modifies this`history, ring`primed, ring.seen, ring.seqNos
      ensures Valid() && history == old(history) + [Packet(ssrc, seqNo)]
      ensures dup == Repeats(old(history), Packet(ssrc, seqNo))
    {
      hide Latest;
      dup := ring.Duplicate(seqNo);
      ghost var p := Packet(ssrc, seqNo);
      forall s, t | s in streams && 0 <= t < SLOTS
        ensures streams[s].Slot(t) == Latest(history + [p], s, t)
      {
        LatestSnoc(history, p, s, t);
      }
      history := history + [p];
    }
  }

  lemma {:induction false} Unheard(history: seq<Packet>, ssrc: nat)
    requires forall p :: p in history ==> p.ssrc != ssrc
    ensures forall t :: Latest(history, ssrc, t) == None
  {
    if history != [] {
      Unheard(history[..|history| - 1], ssrc);
    }
  }

  // ----- runs of the filter -----

  /** The packets that get through. */
  function Passed(packets: seq<Packet>): seq<Packet> {
    if packets == [] then []
    else
      var front, p := packets[..|packets| - 1], packets[|packets| - 1];
      Passed(front) + if Repeats(front, p) then [] else [p]
  }

  lemma PassedSnoc(front: seq<Packet>, p: Packet)
    ensures Passed(front + [p]) == Passed(front) + if Repeats(front, p) then [] else [p]
  {
    assert (front + [p])[..|front|] == front;
  }

  method FilterAll(packets: seq<Packet>) returns (passed: seq<Packet>)
    ensures passed == Passed(packets)
  {
    hide Repeats, Passed, RtpReplayFilter.Valid;
    var filter := new RtpReplayFilter();
    passed := [];
    assert Passed([]) == [] by { NonePassed(); }
    for i := 0 to |packets|
      invariant fresh(filter) && fresh(filter.Repr()) && filter.Valid()
      invariant filter.history == packets[..i] && passed == Passed(packets[..i])
    {
      var p := packets[i];
      PassedSnoc(packets[..i], p);
      assert packets[..i] + [p] == packets[..i + 1];
      ghost var repr := filter.Repr();
      var dup := filter.Duplicate(p.ssrc, p.seqNo);
      assert forall o :: o in filter.Repr() ==> o in repr || o in filter.Repr() - repr;
      passed := passed + if dup then [] else [p];
    }
    assert packets[..|packets|] == packets;
  }

  lemma NonePassed()
    ensures Passed([]) == []
  {
  }

  // ----- merging several relays -----

  /** An arrival is the next packet of a relay's copy of the stream, or one of another SSRC. */
  datatype Arrival = FromRelay(relay: nat) | Unrelated(packet: Packet)

  /** How many packets of the stream a relay has handed over. */
  function Count(arrivals: seq<Arrival>, relay: nat): nat {
    if arrivals == [] then 0
    else Count(arrivals[..|arrivals| - 1], relay) + if arrivals[|arrivals| - 1] == FromRelay(relay) then 1 else 0
  }

  /** How far the stream has come: the lead relay's count. */
  function Lead(arrivals: seq<Arrival>): nat {
    if arrivals == [] then 0
    else
      var front, a := arrivals[..|arrivals| - 1], arrivals[|arrivals| - 1];
      if a.Unrelated? || Count(front, a.relay) < Lead(front) then Lead(front) else Count(front, a.relay) + 1
  }

  /** The k-th packet of the stream; sequence numbers wrap at 2^16. */
  function StreamPacket(ssrc: nat, start: nat, k: nat): Packet {
    Packet(ssrc, (start + k) % TWO16)
  }

  function ArrivalPacket(ssrc: nat, start: nat, front: seq<Arrival>, a: Arrival): Packet {
    if a.Unrelated? then a.packet else StreamPacket(ssrc, start, Count(front, a.relay))
  }

  function Packets(ssrc: nat, start: nat, arrivals: seq<Arrival>): (s: seq<Packet>)
    ensures |s| == |arrivals|
  {
    if arrivals == [] then []
    else
      var front := arrivals[..|arrivals| - 1];
      Packets(ssrc, start, front) + [ArrivalPacket(ssrc, start, front, arrivals[|arrivals| - 1])]
  }

  /** A copy behind the lead is recognised when it lies a multiple of 64 whole turns of the ring
      back: within the last 1024 packets, or about 65536 of them behind, and so on. */
  predicate Recognised(lead: nat, k: nat)
    requires k < lead
  {
    ((lead - 1 - k) / SLOTS) % 64 == 0
  }

  /** The rest of the traffic is other SSRCs. */
  ghost predicate Apart(ssrc: nat, arrivals: seq<Arrival>) {
    forall i :: 0 <= i < |arrivals| && arrivals[i].Unrelated? ==> arrivals[i].packet.ssrc != ssrc
  }

  /** Every copy behind the lead is one that is recognised. */
  ghost predicate Merged(arrivals: seq<Arrival>) {
    arrivals == [] ||
    var front, a := arrivals[..|arrivals| - 1], arrivals[|arrivals| - 1];
    && Merged(front)
    && (a.FromRelay? && Count(front, a.relay) < Lead(front) ==> Recognised(Lead(front), Count(front, a.relay)))
  }

  /** No relay hands over a packet 1024 or more behind the lead. */
  ghost predicate Tight(arrivals: seq<Arrival>) {
    arrivals == [] ||
    var front, a := arrivals[..|arrivals| - 1], arrivals[|arrivals| - 1];
    Tight(front) && (a.FromRelay? ==> Lead(front) - 1 - Count(front, a.relay) < SLOTS)
  }

  lemma {:induction false} TightIsMerged(arrivals: seq<Arrival>)
    requires Tight(arrivals)
    ensures Merged(arrivals)
  {
    if arrivals != [] {
      TightIsMerged(arrivals[..|arrivals| - 1]);
    }
  }

  lemma {:induction false} LeadLeads(arrivals: seq<Arrival>, relay: nat)
    ensures Count(arrivals, relay) <= Lead(arrivals)
  {
    if arrivals != [] {
      var front := arrivals[..|arrivals| - 1];
      LeadLeads(front, relay);
    }
  }

  /** The ring holds exactly the last 1024 packets of the stream up to the lead. */
  ghost predicate Window(history: seq<Packet>, ssrc: nat, start: nat, lead: nat) {
    forall k: int :: lead - SLOTS <= k < lead ==>
      Latest(history, ssrc, SlotOf(start, k)) == if k < 0 then None else Some((start + k) % TWO16)
  }

  /** The slot of a stream position; positions before the stream have one too. */
  function SlotOf(start: nat, k: int): (slot: nat)
    ensures slot < SLOTS
  {
    (start + k) % SLOTS
  }

  lemma SlotOfPacket(start: nat, k: nat)
    ensures ((start + k) % TWO16) % SLOTS == SlotOf(start, k)
  {
    var n := start + k;
    assert n == (n / TWO16) * TWO16 + n % TWO16;
    assert TWO16 == 64 * SLOTS;
    var r := n % TWO16;
    QuotientIsUnique(n, SLOTS, (n / TWO16) * 64 + r / SLOTS, r % SLOTS);
  }

  /** Within a window, different positions have different slots; a full turn has the same one. */
  lemma SlotsDiffer(start: nat, j: int, k: int)
    requires j <= k <= j + SLOTS
    ensures SlotOf(start, j) == SlotOf(start, k) <==> j == k || k == j + SLOTS
  {
  }

  lemma TurnsDiffer(start: nat, k: nat)
    requires k >= SLOTS
    ensures (start + k - SLOTS) % TWO16 != (start + k) % TWO16
  {
  }

  /** Positions whole turns apart share a slot, and a number exactly every 64 turns. */
  lemma TurnsApart(start: nat, k: nat, turns: nat)
    ensures SlotOf(start, k) == SlotOf(start, k + SLOTS * turns)
    ensures (start + k) % TWO16 == (start + k + SLOTS * turns) % TWO16 <==> turns % 64 == 0
  {
    var n := start + k;
    QuotientIsUnique(n + SLOTS * turns, SLOTS, n / SLOTS + turns, n % SLOTS);
    var rest := turns % 64;
    assert SLOTS * turns == TWO16 * (turns / 64) + SLOTS * rest;
    var m := n % TWO16 + SLOTS * rest;
    var over := if m < TWO16 then 0 else 1;
    QuotientIsUnique(n + SLOTS * turns, TWO16, n / TWO16 + turns / 64 + over, m - over * TWO16);
  }

  /** A packet of the stream behind the lead is a repeat exactly when it is recognised. */
  lemma BehindExactly(history: seq<Packet>, ssrc: nat, start: nat, lead: nat, k: nat)
    requires Window(history, ssrc, start, lead) && k < lead
    ensures Repeats(history, StreamPacket(ssrc, start, k)) <==> Recognised(lead, k)
  {
    var turns := (lead - 1 - k) / SLOTS;
    var newest := k + SLOTS * turns;
    TurnsApart(start, k, turns);
    SlotOfPacket(start, k);
    hide SlotOf, Latest;
    assert lead - SLOTS <= newest < lead;
    assert Latest(history, ssrc, SlotOf(start, newest)) == Some((start + newest) % TWO16);
  }

  /** A recognised packet is a repeat and leaves the window as it is. */
  lemma BehindTheLead(history: seq<Packet>, ssrc: nat, start: nat, lead: nat, k: nat)
    requires Window(history, ssrc, start, lead) && k < lead && Recognised(lead, k)
    ensures Repeats(history, StreamPacket(ssrc, start, k))
    ensures Window(history + [StreamPacket(ssrc, start, k)], ssrc, start, lead)
  {
    BehindExactly(history, ssrc, start, lead, k);
    var p := StreamPacket(ssrc, start, k);
    RepeatKeepsLatest(history, p);
    hide SlotOf, Latest, Repeats, Recognised;
    forall j: int | lead - SLOTS <= j < lead
      ensures Latest(history + [p], ssrc, SlotOf(start, j)) == if j < 0 then None else Some((start + j) % TWO16)
    {
      assert Latest(history + [p], ssrc, SlotOf(start, j)) == Latest(history, ssrc, SlotOf(start, j));
    }
  }

  lemma RepeatKeepsLatest(history: seq<Packet>, p: Packet)
    requires Repeats(history, p)
    ensures forall ssrc, slot :: Latest(history + [p], ssrc, slot) == Latest(history, ssrc, slot)
  {
    forall ssrc, slot ensures Latest(history + [p], ssrc, slot) == Latest(history, ssrc, slot) {
      LatestSnoc(history, p, ssrc, slot);
    }
  }

  /** The packet at the lead is new and moves the window on by one. */
  lemma AtTheLead(history: seq<Packet>, ssrc: nat, start: nat, lead: nat)
    requires Window(history, ssrc, start, lead)
    ensures !Repeats(history, StreamPacket(ssrc, start, lead))
    ensures Window(history + [StreamPacket(ssrc, start, lead)], ssrc, start, lead + 1)
  {
    hide SlotOf, Latest;
    var p := StreamPacket(ssrc, start, lead);
    SlotOfPacket(start, lead);
    SlotsDiffer(start, lead - SLOTS, lead);
    if lead >= SLOTS {
      TurnsDiffer(start, lead);
    }
    assert Latest(history, ssrc, SlotOf(start, lead)) == Latest(history, ssrc, SlotOf(start, lead - SLOTS));
    forall j: int | lead + 1 - SLOTS <= j < lead + 1
      ensures Latest(history + [p], ssrc, SlotOf(start, j)) == if j < 0 then None else Some((start + j) % TWO16)
    {
      LatestSnoc(history, p, ssrc, SlotOf(start, j));
      SlotsDiffer(start, j, lead);
    }
  }

  lemma AnotherStream(history: seq<Packet>, p: Packet, ssrc: nat, start: nat, lead: nat)
    requires Window(history, ssrc, start, lead) && p.ssrc != ssrc
    ensures Window(history + [p], ssrc, start, lead)
  {
    hide SlotOf, Latest;
    forall j: int | lead - SLOTS <= j < lead
      ensures Latest(history + [p], ssrc, SlotOf(start, j)) == if j < 0 then None else Some((start + j) % TWO16)
    {
      LatestSnoc(history, p, ssrc, SlotOf(start, j));
    }
  }

  function OfStream(packets: seq<Packet>, ssrc: nat): seq<Packet> {
    if packets == [] then []
    else
      var p := packets[|packets| - 1];
      OfStream(packets[..|packets| - 1], ssrc) + if p.ssrc == ssrc then [p] else []
  }

  function Stream(ssrc: nat, start: nat, n: nat): (s: seq<Packet>)
    ensures |s| == n
  {
    seq(n, k requires 0 <= k => StreamPacket(ssrc, start, k))
  }

  lemma OfStreamSnoc(packets: seq<Packet>, p: Packet, ssrc: nat)
    ensures OfStream(packets + [p], ssrc) == OfStream(packets, ssrc) + if p.ssrc == ssrc then [p] else []
    ensures packets + [] == packets
  {
    assert (packets + [p])[..|packets|] == packets;
  }

  lemma UnrelatedStep(before: seq<Packet>, p: Packet, ssrc: nat, start: nat, lead: nat)
    requires Window(before, ssrc, start, lead) && p.ssrc != ssrc
    ensures Window(before + [p], ssrc, start, lead)
    ensures OfStream(Passed(before + [p]), ssrc) == OfStream(Passed(before), ssrc)
  {
    AnotherStream(before, p, ssrc, start, lead);
    hide Window, Repeats, OfStream, Passed;
    PassedSnoc(before, p);
    OfStreamSnoc(Passed(before), p, ssrc);
  }

  lemma StreamStep(before: seq<Packet>, ssrc: nat, start: nat, lead: nat, k: nat)
    requires Window(before, ssrc, start, lead) && k <= lead && (k < lead ==> Recognised(lead, k))
    requires OfStream(Passed(before), ssrc) == Stream(ssrc, start, lead)
    ensures var after := before + [StreamPacket(ssrc, start, k)];
            var lead' := if k < lead then lead else lead + 1;
            Window(after, ssrc, start, lead') && OfStream(Passed(after), ssrc) == Stream(ssrc, start, lead')
  {
    hide Window, Repeats, OfStream, Passed, Recognised;
    var p := StreamPacket(ssrc, start, k);
    PassedSnoc(before, p);
    OfStreamSnoc(Passed(before), p, ssrc);
    if k < lead {
      BehindTheLead(before, ssrc, start, lead, k);
    } else {
      AtTheLead(before, ssrc, start, lead);
      assert Stream(ssrc, start, lead + 1) == Stream(ssrc, start, lead) + [p];
    }
  }

  /** What has passed is the stream so far: each of its packets once, in order. */
  ghost predicate PassesOnce(ssrc: nat, start: nat, arrivals: seq<Arrival>) {
    OfStream(Passed(Packets(ssrc, start, arrivals)), ssrc) == Stream(ssrc, start, Lead(arrivals))
  }

  /** Merging any number of in-order copies of one gap-free stream, whatever else flows through the
      filter: each packet passes exactly once, in order, across any number of sequence number
      wraps, as long as every copy behind the lead is a recognised one. */
  lemma {:induction false} MergePassesOnce(ssrc: nat, start: nat, arrivals: seq<Arrival>)
    requires Apart(ssrc, arrivals) && Merged(arrivals)
    ensures PassesOnce(ssrc, start, arrivals)
    ensures Window(Packets(ssrc, start, arrivals), ssrc, start, Lead(arrivals))
  {
    if arrivals != [] {
      var front, a := arrivals[..|arrivals| - 1], arrivals[|arrivals| - 1];
      assert arrivals[|arrivals| - 1] == a;
      MergePassesOnce(ssrc, start, front);
      var before, lead := Packets(ssrc, start, front), Lead(front);
      hide Window, Passed, OfStream, Stream, StreamPacket, Recognised;
      if a.Unrelated? {
        UnrelatedStep(before, a.packet, ssrc, start, lead);
      } else {
        LeadLeads(front, a.relay);
        StreamStep(before, ssrc, start, lead, Count(front, a.relay));
      }
    }
  }

  /** In particular with a skew under 1024. */
  lemma TightPassesOnce(ssrc: nat, start: nat, arrivals: seq<Arrival>)
    requires Apart(ssrc, arrivals) && Tight(arrivals)
    ensures PassesOnce(ssrc, start, arrivals)
  {
    TightIsMerged(arrivals);
    MergePassesOnce(ssrc, start, arrivals);
  }

  /** A copy behind the lead that is not recognised passes a second time. */
  lemma LaggardPassesAgain(ssrc: nat, start: nat, front: seq<Arrival>, relay: nat)
    requires Apart(ssrc, front) && Merged(front)
    requires Count(front, relay) < Lead(front) && !Recognised(Lead(front), Count(front, relay))
    ensures !PassesOnce(ssrc, start, front + [FromRelay(relay)])
  {
    var all := front + [FromRelay(relay)];
    assert all[..|all| - 1] == front;
    var before, k := Packets(ssrc, start, front), Count(front, relay);
    var p := StreamPacket(ssrc, start, k);
    MergePassesOnce(ssrc, start, front);
    BehindExactly(before, ssrc, start, Lead(front), k);
    assert Packets(ssrc, start, all) == before + [p] && Lead(all) == Lead(front);
    hide Window, Repeats, OfStream, Passed, Recognised, Packets, Lead, Count;
    PassedSnoc(before, p);
    OfStreamSnoc(Passed(before), p, ssrc);
  }

  /** At every point of a run, each packet so far has passed once, in order. */
  ghost predicate AlwaysPassesOnce(ssrc: nat, start: nat, arrivals: seq<Arrival>) {
    forall n :: 0 <= n <= |arrivals| ==> PassesOnce(ssrc, start, arrivals[..n])
  }

  lemma AlwaysSnoc(ssrc: nat, start: nat, front: seq<Arrival>, a: Arrival)
    ensures AlwaysPassesOnce(ssrc, start, front + [a]) <==>
            AlwaysPassesOnce(ssrc, start, front) && PassesOnce(ssrc, start, front + [a])
  {
    hide PassesOnce;
    var all := front + [a];
    assert all[..|all|] == all;
    assert forall m :: 0 <= m <= |front| ==> front[..m] == all[..m];
  }

  lemma MergedSnoc(front: seq<Arrival>, a: Arrival)
    ensures Merged(front + [a]) <==>
            && Merged(front)
            && (a.FromRelay? && Count(front, a.relay) < Lead(front) ==> Recognised(Lead(front), Count(front, a.relay)))
  {
    hide Recognised, Count, Lead;
    assert (front + [a])[..|front|] == front;
  }

  lemma NothingArrived(ssrc: nat, start: nat)
    ensures PassesOnce(ssrc, start, []) && AlwaysPassesOnce(ssrc, start, []) && Merged([])
  {
  }

  /** Every packet passes exactly once throughout, exactly when every copy behind the lead lies a
      multiple of 64 whole turns of the ring back. */
  lemma {:induction false} MergeExactly(ssrc: nat, start: nat, arrivals: seq<Arrival>)
    requires Apart(ssrc, arrivals)
    ensures AlwaysPassesOnce(ssrc, start, arrivals) <==> Merged(arrivals)
    decreases |arrivals|
  {
    hide PassesOnce, AlwaysPassesOnce, Merged, Recognised, Count, Lead;
    if arrivals == [] {
      NothingArrived(ssrc, start);
    } else {
      var front, a := arrivals[..|arrivals| - 1], arrivals[|arrivals| - 1];
      assert front + [a] == arrivals;
      MergeExactly(ssrc, start, front);
      AlwaysSnoc(ssrc, start, front, a);
      MergedSnoc(front, a);
      if Merged(arrivals) {
        MergePassesOnce(ssrc, start, arrivals);
      } else if Merged(front) {
        LaggardPassesAgain(ssrc, start, front, a.relay);
      }
    }
  }
}
