/**
  Reaction delivery: ten copies of each reaction out, a receiver that delivers each reaction at
  most once, and between them a network that loses, duplicates and reorders.
 */
module ReactionDelivery {
  import opened Common
  import opened ReactionWire

  const COPIES := 10
  const TIMESTAMP_STEP := 50
  const TWO16 := 0x1_0000
  const TWO32 := 0x1_0000_0000

  datatype Packet = Packet(sequenceNumber: nat, timestamp: nat, payload: Bytes)

  /** The packet of the k-th transmission of a sender's life. */
  function Transmission(k: nat, payload: Bytes): Packet {
    Packet(k % TWO16, TIMESTAMP_STEP * k % TWO32, payload)
  }

  function Transmissions(after: nat, n: nat, payload: Bytes): (s: seq<Packet>)
    ensures |s| == n
  {
    seq(n, j requires 0 <= j => Transmission(after + 1 + j, payload))
  }

  class AppDataSender {
    var ready: bool
    var sequenceNumber: nat
    var timestamp: nat
    var transactionID: nat
    var sent: seq<Packet>
    /** Transmissions attempted so far. */
    ghost var attempts: nat

    ghost predicate Valid()
      reads this
    {
      sequenceNumber == attempts % TWO16 && timestamp == TIMESTAMP_STEP * attempts % TWO32
    }

    constructor ()
      ensures Valid() && ready && transactionID == 0 && sent == [] && attempts == 0
    {
      ready, sequenceNumber, timestamp, transactionID, sent, attempts := true, 0, 0, 0, [], 0;
    }

    /** Sends up to ten copies, stopping at the first that fails.  Sequence numbers and timestamps
        advance with every attempt, modulo 2^16 and 2^32. */
    method SendReaction(emoji: Bytes, fails: nat -> bool) returns (ok: bool, ghost n: nat)
      requires Valid()
      modifies this
      ensures Valid() && ready == old(ready) && n <= COPIES
      ensures !Utf8(emoji) || !ready ==>
                !ok && n == 0 && transactionID == old(transactionID) && attempts == old(attempts)
      ensures Utf8(emoji) && ready ==> transactionID == (old(transactionID) + 1) % TWO64
                                       && ok == (n == COPIES) && (n < COPIES ==> fails(n))
                                       && (forall i :: 0 <= i < n ==> !fails(i))
                                       && attempts == old(attempts) + (if ok then n else n + 1)
      ensures sent == old(sent) + Transmissions(old(attempts), n, Encode(Reaction(transactionID, emoji)))
    {
      n := 0;
      assert forall a, p :: Transmissions(a, 0, p) == [];
      if !Utf8(emoji) || !ready {
        return false, 0;
      }
      transactionID := (transactionID + 1) % TWO64;
      var payload := Encode(Reaction(transactionID, emoji));
      var i := 0;
      while i < COPIES
        invariant i <= COPIES && n == i && Valid() && attempts == old(attempts) + i && ready == old(ready)
        invariant transactionID == (old(transactionID) + 1) % TWO64
        invariant forall k :: 0 <= k < i ==> !fails(k)
        invariant sent == old(sent) + Transmissions(old(attempts), i, payload)
      {
        NextTransmission(attempts);
        sequenceNumber := (sequenceNumber + 1) % TWO16;
        timestamp := (timestamp + TIMESTAMP_STEP) % TWO32;
        attempts := attempts + 1;
        if fails(i) {
          return false, i;
        }
        assert Transmissions(old(attempts), i + 1, payload)
            == Transmissions(old(attempts), i, payload) + [Transmission(attempts, payload)];
        sent := sent + [Packet(sequenceNumber, timestamp, payload)];
        i, n := i + 1, n + 1;
      }
      ok := true;
    }

    method Close()
      modifies this`ready
      ensures !ready
    {
      ready := false;
    }
  }

  lemma NextTransmission(k: nat)
    ensures (k % TWO16 + 1) % TWO16 == (k + 1) % TWO16
    ensures (TIMESTAMP_STEP * k % TWO32 + TIMESTAMP_STEP) % TWO32 == TIMESTAMP_STEP * (k + 1) % TWO32
  {
    ModAbsorbs(k, 1, TWO16);
    ModAbsorbs(TIMESTAMP_STEP * k, TIMESTAMP_STEP, TWO32);
  }

  // ----- the receiver -----

  /** The first reaction newer than the last one delivered. */
  function FirstNewer(last: nat, reactions: seq<Reaction>): Option<Reaction> {
    if reactions == [] then None
    else if reactions[0].id > last then Some(reactions[0])
    else FirstNewer(last, reactions[1..])
  }

  /** What a payload delivers; a malformed one delivers nothing. */
  function Delivery(last: nat, payload: Bytes): Option<Reaction> {
    match Parse(payload)
    case None => None
    case Some(reactions) => FirstNewer(last, reactions)
  }

  /** Everything delivered over a run. */
  function Deliveries(last: nat, payloads: seq<Bytes>): seq<Reaction>
    decreases |payloads|
  {
    if payloads == [] then []
    else match Delivery(last, payloads[0])
      case None => Deliveries(last, payloads[1..])
      case Some(r) => [r] + Deliveries(r.id, payloads[1..])
  }

  class AppDataReceiver {
    var lastTransactionID: nat

    constructor ()
      ensures lastTransactionID == 0
    {
      lastTransactionID := 0;
    }

    method Receive(payload: Bytes) returns (delivered: Option<Reaction>, failed: bool)
      modifies this
      ensures failed == Parse(payload).None?
      ensures delivered == Delivery(old(lastTransactionID), payload)
      ensures lastTransactionID == if delivered.Some? then delivered.value.id else old(lastTransactionID)
    {
      var reactions := Decode(payload);
      if reactions.None? {
        return None, true;
      }
      var i := 0;
      assert reactions.value[0..] == reactions.value;
      while i < |reactions.value|
        invariant i <= |reactions.value| && lastTransactionID == old(lastTransactionID)
        invariant FirstNewer(lastTransactionID, reactions.value) == FirstNewer(lastTransactionID, reactions.value[i..])
      {
        if reactions.value[i].id > lastTransactionID {
          lastTransactionID := reactions.value[i].id;
          return Some(reactions.value[i]), false;
        }
        i := i + 1;
      }
      return None, false;
    }
  }

  /** Whatever arrives, forged and malformed payloads included: ids strictly increase. */
  lemma {:induction false} DeliveriesIncrease(last: nat, payloads: seq<Bytes>)
    ensures forall i :: 0 <= i < |Deliveries(last, payloads)| ==> Deliveries(last, payloads)[i].id > last
    ensures forall i, j :: 0 <= i < j < |Deliveries(last, payloads)| ==>
              Deliveries(last, payloads)[i].id < Deliveries(last, payloads)[j].id
    decreases |payloads|
  {
    if payloads != [] {
      match Delivery(last, payloads[0])
      case None => DeliveriesIncrease(last, payloads[1..]);
      case Some(r) =>
        FirstNewerIsNewer(last, Parse(payloads[0]).value);
        DeliveriesIncrease(r.id, payloads[1..]);
    }
  }

  lemma {:induction false} FirstNewerIsNewer(last: nat, reactions: seq<Reaction>)
    ensures var r := FirstNewer(last, reactions); r.Some? ==> r.value.id > last && r.value in reactions
  {
    if reactions != [] && reactions[0].id <= last {
      FirstNewerIsNewer(last, reactions[1..]);
    }
  }

  // ----- the network between them -----

  /** The k-th reaction of a sender, counting from zero. */
  function Nth(emojis: seq<Bytes>, k: nat): Reaction
    requires k < |emojis|
  {
    Reaction(k + 1, emojis[k])
  }

  /** Reactions a sender accepts and its transaction counter does not run out on. */
  ghost predicate Sendable(emojis: seq<Bytes>) {
    && |emojis| < TWO64
    && forall k :: 0 <= k < |emojis| ==> Utf8(emojis[k]) && |EncodeMessage(Nth(emojis, k))| < TWO64
  }

  /** What arrives: each arrival is a copy of some reaction, in any order, any number of times. */
  ghost predicate Copied(emojis: seq<Bytes>, arrivals: seq<nat>, payloads: seq<Bytes>) {
    && |payloads| == |arrivals|
    && forall i :: 0 <= i < |arrivals| ==> arrivals[i] < |emojis| && payloads[i] == Encode(Nth(emojis, arrivals[i]))
  }

  lemma CopiedParts(emojis: seq<Bytes>, arrivals: seq<nat>, payloads: seq<Bytes>)
    requires Copied(emojis, arrivals, payloads)
    ensures Within(arrivals, |emojis|) && |payloads| == |arrivals|
    ensures arrivals != [] ==>
              && arrivals[0] < |emojis| && payloads[0] == Encode(Nth(emojis, arrivals[0]))
              && Copied(emojis, arrivals[1..], payloads[1..])
  {
    hide Encode;
  }

  lemma CopyDelivers(emojis: seq<Bytes>, k: nat, last: nat)
    requires Sendable(emojis) && k < |emojis|
    ensures Delivery(last, Encode(Nth(emojis, k))) == if k + 1 > last then Some(Nth(emojis, k)) else None
  {
    var r := Nth(emojis, k);
    RoundTrip(r);
    assert FirstNewer(last, [r][1..]) == None;
  }

  ghost predicate Within(s: seq<nat>, bound: nat) {
    forall i :: 0 <= i < |s| ==> s[i] < bound
  }

  /** The arrivals that outrank everything before them. */
  ghost function Records(emojis: seq<Bytes>, last: nat, arrivals: seq<nat>): seq<Reaction>
    requires Within(arrivals, |emojis|)
    decreases |arrivals|
  {
    if arrivals == [] then []
    else if arrivals[0] < last then Records(emojis, last, arrivals[1..])
    else [Nth(emojis, arrivals[0])] + Records(emojis, arrivals[0] + 1, arrivals[1..])
  }

  /** The reactions delivered are the records among the arrivals. */
  lemma {:induction false} DeliversRecords(emojis: seq<Bytes>, arrivals: seq<nat>, payloads: seq<Bytes>, last: nat)
    requires Sendable(emojis) && Copied(emojis, arrivals, payloads)
    ensures Within(arrivals, |emojis|) && Deliveries(last, payloads) == Records(emojis, last, arrivals)
    decreases |arrivals|
  {
    hide Delivery, Sendable, Copied, Encode, Within;
    CopiedParts(emojis, arrivals, payloads);
    if arrivals != [] {
      var first, rest, rest' := arrivals[0], arrivals[1..], payloads[1..];
      CopyDelivers(emojis, first, last);
      DeliversRecords(emojis, rest, rest', if first < last then last else first + 1);
    }
  }

  lemma {:induction false} RecordsAreSent(emojis: seq<Bytes>, last: nat, arrivals: seq<nat>, i: nat)
    requires Within(arrivals, |emojis|) && i < |Records(emojis, last, arrivals)|
    ensures var r := Records(emojis, last, arrivals)[i]; 1 <= r.id <= |emojis| && r.emoji == emojis[r.id - 1]
    decreases |arrivals|
  {
    if arrivals[0] < last {
      RecordsAreSent(emojis, last, arrivals[1..], i);
    } else if i > 0 {
      RecordsAreSent(emojis, arrivals[0] + 1, arrivals[1..], i - 1);
    }
  }

  ghost predicate InOrder(s: seq<nat>) {
    forall i, j :: 0 <= i < j < |s| ==> s[i] <= s[j]
  }

  function All(emojis: seq<Bytes>): (s: seq<Reaction>)
    ensures |s| == |emojis|
  {
    seq(|emojis|, k requires 0 <= k < |emojis| => Nth(emojis, k))
  }

  /** In order and with a copy of each reaction left, the records are the rest of them, once each. */
  lemma {:induction false} RecordsAreAll(emojis: seq<Bytes>, last: nat, arrivals: seq<nat>)
    requires InOrder(arrivals) && Within(arrivals, |emojis|) && last <= |emojis|
    requires forall i :: 0 <= i < |arrivals| ==> last <= arrivals[i] + 1
    requires forall k :: last <= k < |emojis| ==> k in arrivals
    ensures Records(emojis, last, arrivals) == All(emojis)[last..]
    decreases |arrivals|
  {
    if arrivals == [] {
      assert last < |emojis| ==> last in arrivals;
    } else {
      var first, rest := arrivals[0], arrivals[1..];
      assert arrivals == [first] + rest;
      assert first <= last by {
        if last < |emojis| {
          assert last in arrivals;
        }
      }
      var next := if first == last then last + 1 else last;
      forall k | next <= k < |emojis| ensures k in rest {
        assert k in arrivals && k != first;
      }
      RecordsAreAll(emojis, next, rest);
    }
  }

  /** A copy of the k-th reaction got through. */
  ghost predicate Survives(network: seq<nat>, k: nat) {
    exists i :: 0 <= i < |network| && network[i] / COPIES == k
  }

  /** What the network hands over: for each index it names, the payload of that transmission. */
  ghost predicate Carried(emojis: seq<Bytes>, network: seq<nat>, payloads: seq<Bytes>) {
    && |payloads| == |network|
    && forall i :: 0 <= i < |network| ==>
         network[i] / COPIES < |emojis| && payloads[i] == Encode(Nth(emojis, network[i] / COPIES))
  }

  function Owners(network: seq<nat>): (s: seq<nat>)
    ensures |s| == |network|
  {
    seq(|network|, i requires 0 <= i < |network| => network[i] / COPIES)
  }

  lemma CarriedIsCopied(emojis: seq<Bytes>, network: seq<nat>, payloads: seq<Bytes>)
    requires Carried(emojis, network, payloads)
    ensures Copied(emojis, Owners(network), payloads)
  {
    hide Encode;
  }

  lemma ConversationIsSafe(emojis: seq<Bytes>, network: seq<nat>, payloads: seq<Bytes>)
    requires Sendable(emojis) && Carried(emojis, network, payloads)
    ensures forall i :: 0 <= i < |Deliveries(0, payloads)| ==>
              var r := Deliveries(0, payloads)[i]; 1 <= r.id <= |emojis| && r.emoji == emojis[r.id - 1]
  {
    hide Sendable, Copied, Deliveries, Encode, Carried, Owners, Records, Nth;
    CarriedIsCopied(emojis, network, payloads);
    DeliversRecords(emojis, Owners(network), payloads, 0);
    forall i | 0 <= i < |Deliveries(0, payloads)|
      ensures var r := Deliveries(0, payloads)[i]; 1 <= r.id <= |emojis| && r.emoji == emojis[r.id - 1]
    {
      RecordsAreSent(emojis, 0, Owners(network), i);
    }
  }

  lemma ConversationIsLive(emojis: seq<Bytes>, network: seq<nat>, payloads: seq<Bytes>)
    requires Sendable(emojis) && Carried(emojis, network, payloads)
    requires InOrder(network) && forall k :: 0 <= k < |emojis| ==> Survives(network, k)
    ensures Deliveries(0, payloads) == All(emojis)
  {
    var arrivals := Owners(network);
    CarriedIsCopied(emojis, network, payloads);
    assert InOrder(arrivals);
    hide Sendable, Copied, Deliveries, InOrder, Encode, Records, Nth, Carried;
    forall k | 0 <= k < |emojis| ensures k in arrivals {
      assert Survives(network, k);
      var i :| 0 <= i < |network| && network[i] / COPIES == k;
      assert arrivals[i] == k;
    }
    DeliversRecords(emojis, arrivals, payloads, 0);
    RecordsAreAll(emojis, 0, arrivals);
  }

  lemma CarriedBy(emojis: seq<Bytes>, network: seq<nat>, packets: seq<Packet>, payloads: seq<Bytes>)
    requires SentInFull(emojis, packets) && |payloads| == |network|
    requires forall i :: 0 <= i < |network| ==> network[i] < |packets| && payloads[i] == packets[network[i]].payload
    ensures Carried(emojis, network, payloads)
  {
    hide Encode;
  }

  /** A whole conversation: every reaction is sent in ten copies, the network picks what arrives.
      Whatever it does, the reactions delivered are sent ones with strictly increasing ids; and if
      it keeps the order and leaves one copy of each, all are delivered exactly once, in order. */
  method Converse(emojis: seq<Bytes>, network: seq<nat>) returns (delivered: seq<Reaction>)
    requires Sendable(emojis)
    requires forall i :: 0 <= i < |network| ==> network[i] < COPIES * |emojis|
    ensures forall i, j :: 0 <= i < j < |delivered| ==> delivered[i].id < delivered[j].id
    ensures forall i :: 0 <= i < |delivered| ==>
              1 <= delivered[i].id <= |emojis| && delivered[i].emoji == emojis[delivered[i].id - 1]
    ensures InOrder(network) && (forall k :: 0 <= k < |emojis| ==> Survives(network, k)) ==> delivered == All(emojis)
  {
    hide *;
    var packets := SendAll(emojis);
    var payloads := seq(|network|, i requires 0 <= i < |network| => packets[network[i]].payload);
    CarriedBy(emojis, network, packets, payloads);
    delivered := ReceiveAll(payloads);
    DeliveriesIncrease(0, payloads);
    ConversationIsSafe(emojis, network, payloads);
    if InOrder(network) && forall k :: 0 <= k < |emojis| ==> Survives(network, k) {
      ConversationIsLive(emojis, network, payloads);
    }
  }

  /** Ten copies of each reaction, numbered and stamped in one sequence. */
  ghost predicate SentInFull(emojis: seq<Bytes>, packets: seq<Packet>) {
    forall i :: 0 <= i < |packets| ==>
      i / COPIES < |emojis| && packets[i] == Transmission(i + 1, Encode(Nth(emojis, i / COPIES)))
  }

  lemma SentExtends(emojis: seq<Bytes>, packets: seq<Packet>, emoji: Bytes)
    requires SentInFull(emojis, packets) && |packets| == COPIES * |emojis|
    ensures var k := |emojis|;
            SentInFull(emojis + [emoji], packets + Transmissions(COPIES * k, COPIES, Encode(Reaction(k + 1, emoji))))
  {
    hide Encode;
  }

  /** Each packet is numbered one after the one before it, modulo 2^16, and stamped 50 after it,
      modulo 2^32. */
  ghost predicate Counted(packets: seq<Packet>) {
    && (packets != [] ==> packets[0].sequenceNumber == 1 && packets[0].timestamp == 50)
    && (forall i :: 0 < i < |packets| ==>
          && packets[i].sequenceNumber == (packets[i - 1].sequenceNumber + 1) % TWO16
          && packets[i].timestamp == (packets[i - 1].timestamp + 50) % TWO32)
  }

  lemma SentIsCounted(emojis: seq<Bytes>, packets: seq<Packet>)
    requires SentInFull(emojis, packets)
    ensures Counted(packets)
  {
    hide Encode, Nth;
    forall i | 0 < i < |packets|
      ensures packets[i].sequenceNumber == (packets[i - 1].sequenceNumber + 1) % TWO16
      ensures packets[i].timestamp == (packets[i - 1].timestamp + 50) % TWO32
    {
      ModAbsorbs(i, 1, TWO16);
      ModAbsorbs(TIMESTAMP_STEP * i, TIMESTAMP_STEP, TWO32);
    }
  }

  method SendAll(emojis: seq<Bytes>) returns (packets: seq<Packet>)
    requires Sendable(emojis)
    ensures |packets| == COPIES * |emojis| && SentInFull(emojis, packets) && Counted(packets)
  {
    hide Encode, SentInFull, Counted;
    var sender := new AppDataSender();
    assert SentInFull([], []) by { NothingSent(); }
    for k := 0 to |emojis|
      invariant fresh(sender) && sender.Valid() && sender.ready && sender.transactionID == k
      invariant sender.attempts == |sender.sent| == COPIES * k
      invariant SentInFull(emojis[..k], sender.sent)
    {
      SentExtends(emojis[..k], sender.sent, emojis[k]);
      assert emojis[..k] + [emojis[k]] == emojis[..k + 1];
      var _, _ := sender.SendReaction(emojis[k], (i: nat) => false);
    }
    assert emojis[..|emojis|] == emojis;
    packets := sender.sent;
    SentIsCounted(emojis, packets);
  }

  lemma NothingSent()
    ensures SentInFull([], [])
  {
  }

  method ReceiveAll(payloads: seq<Bytes>) returns (delivered: seq<Reaction>)
    ensures delivered == Deliveries(0, payloads)
  {
    var receiver := new AppDataReceiver();
    delivered := [];
    assert payloads[0..] == payloads;
    for i := 0 to |payloads|
      invariant fresh(receiver)
      invariant delivered + Deliveries(receiver.lastTransactionID, payloads[i..]) == Deliveries(0, payloads)
    {
      var r, _ := receiver.Receive(payloads[i]);
      assert payloads[i..][1..] == payloads[i + 1..];
      if r.Some? {
        delivered := delivered + [r.value];
      }
    }
  }

  /** The 64-bit counter wraps to zero, and a reaction with id zero is never delivered. */
  lemma WrappedReactionIsLost(emoji: Bytes, last: nat)
    requires |EncodeMessage(Reaction(0, emoji))| < TWO64
    ensures Delivery(last, Encode(Reaction(0, emoji))) == None
  {
    RoundTrip(Reaction(0, emoji));
  }
}
