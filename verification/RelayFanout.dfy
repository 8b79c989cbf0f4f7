/**
  The relay fanout as a state machine: one reader per relay, a bounded backlog, a receiver, and a
  close that may come from outside or from the last reader to fail.  Every atomic action of the
  goroutines is a step, and any interleaving of steps is a run.
 */
module RelayFanout {
  import opened Common

  const BACKLOG := 256

  /** A packet as merged: the relay it came over, its number among that relay's reads, its bytes. */
  datatype Merged = Merged(relay: nat, number: nat, bytes: Bytes)

  /** A reader is reading, holds a packet it wants to merge, has met an error, must close the
      fanout because it was the last, or is gone. */
  datatype Phase = Reading | Holding | Failing | LastOne | Failed | Stopped

  datatype Reader = Reader(phase: Phase, read: seq<Bytes>)

  /** How far the one close has come: not begun, flagged, signalled, and relays closed so far. */
  datatype Closing = Open | Flagged | Signalled(closed: nat)

  datatype Fanout = Fanout(
    readers: seq<Reader>,
    backlog: seq<Merged>,
    received: seq<Merged>,
    live: int,
    closing: Closing,
    draining: bool,
    reported: bool)
  {
    predicate Done() {
      closing.Signalled?
    }

    function With(i: nat, r: Reader): Fanout
      requires i < |readers|
    {
      this.(readers := readers[i := r])
    }

    /** Everything merged so far, in order: what was received and what waits. */
    function Log(): seq<Merged> {
      received + backlog
    }
  }

  function Started(relays: nat): Fanout {
    Fanout(seq(relays, _ => Reader(Reading, [])), [], [], relays, Open, false, false)
  }

  datatype Step =
    | Read(i: nat, bytes: Bytes)
    | Fail(i: nat)
    | Merge(i: nat)
    | Drop(i: nat)
    | Stop(i: nat)
    | Leave(i: nat)
    | CloseFromReader(i: nat)
    | CloseFromOutside
    | Signal
    | CloseRelay
    | Receive
    | NoticeDone
    | Drain

  predicate Enabled(f: Fanout, s: Step) {
    match s
    case Read(i, _) => i < |f.readers| && f.readers[i].phase == Reading
    case Fail(i) => i < |f.readers| && f.readers[i].phase == Reading
    case Merge(i) =>
      i < |f.readers| && f.readers[i].phase == Holding && f.readers[i].read != [] && |f.backlog| < BACKLOG
    case Drop(i) => i < |f.readers| && f.readers[i].phase == Holding && |f.backlog| >= BACKLOG && !f.Done()
    case Stop(i) => i < |f.readers| && f.readers[i].phase == Holding && f.Done()
    case Leave(i) => i < |f.readers| && f.readers[i].phase == Failing
    case CloseFromReader(i) => i < |f.readers| && f.readers[i].phase == LastOne
    case CloseFromOutside => true
    case Signal => f.closing.Flagged?
    case CloseRelay => f.closing.Signalled? && f.closing.closed < |f.readers|
    case Receive => !f.draining && f.backlog != []
    case NoticeDone => !f.draining && f.Done()
    case Drain => f.draining
  }

  function BeginClose(f: Fanout): Fanout {
    if f.closing.Open? then f.(closing := Flagged) else f
  }

  function Pop(f: Fanout): Fanout
    requires f.backlog != []
  {
    f.(received := f.received + [f.backlog[0]], backlog := f.backlog[1..])
  }

  function Next(f: Fanout, s: Step): Fanout
    requires Enabled(f, s)
  {
    match s
    case Read(i, bytes) => f.With(i, Reader(Holding, f.readers[i].read + [bytes]))
    case Fail(i) => f.With(i, f.readers[i].(phase := Failing))
    case Merge(i) =>
      var r := f.readers[i];
      f.With(i, r.(phase := Reading)).(backlog := f.backlog + [Merged(i, |r.read| - 1, r.read[|r.read| - 1])])
    case Drop(i) => f.With(i, f.readers[i].(phase := Reading))
    case Stop(i) => f.With(i, f.readers[i].(phase := Stopped))
    case Leave(i) => f.With(i, f.readers[i].(phase := if f.live == 1 then LastOne else Failed)).(live := f.live - 1)
    case CloseFromReader(i) => BeginClose(f.With(i, f.readers[i].(phase := Failed)))
    case CloseFromOutside => BeginClose(f)
    case Signal => f.(closing := Signalled(0))
    case CloseRelay => f.(closing := Signalled(f.closing.closed + 1))
    case Receive => Pop(f)
    case NoticeDone => f.(draining := true)
    case Drain => (if f.backlog != [] then Pop(f) else f.(reported := true)).(draining := false)
  }

  // ----- what every interleaving keeps -----

  function Merges(r: Reader): int {
    if r.phase == Holding then |r.read| - 1 else |r.read|
  }

  /** A merged packet is what its relay read under that number, and is no longer held. */
  ghost predicate Came(readers: seq<Reader>, m: Merged) {
    && m.relay < |readers| && m.number < |readers[m.relay].read| && m.bytes == readers[m.relay].read[m.number]
    && m.number < Merges(readers[m.relay])
  }

  /** The packets of one relay are a subsequence of what it read. */
  ghost predicate Faithful(readers: seq<Reader>, log: seq<Merged>) {
    && (forall a :: 0 <= a < |log| ==> Came(readers, log[a]))
    && (forall a, b :: 0 <= a < b < |log| && log[a].relay == log[b].relay ==> log[a].number < log[b].number)
    && (forall i :: 0 <= i < |readers| && readers[i].phase == Holding ==> readers[i].read != [])
  }

  /** Readers that have taken themselves off the live count. */
  predicate Gone(p: Phase) {
    p == LastOne || p == Failed
  }

  function LiveReaders(readers: seq<Reader>): nat {
    if readers == [] then 0
    else LiveReaders(readers[..|readers| - 1]) + if Gone(readers[|readers| - 1].phase) then 0 else 1
  }

  ghost predicate Counted(f: Fanout) {
    f.live == LiveReaders(f.readers)
  }

  /** With the last reader gone the close has begun, or that reader is about to begin it. */
  ghost predicate WillClose(f: Fanout) {
    f.live == 0 && f.readers != [] && f.closing.Open? ==>
      exists i :: 0 <= i < |f.readers| && f.readers[i].phase == LastOne
  }

  lemma {:induction false} LiveAfter(readers: seq<Reader>, i: nat, r: Reader)
    requires i < |readers|
    ensures LiveReaders(readers[i := r]) ==
            LiveReaders(readers) + (if Gone(readers[i].phase) then 1 else 0) - (if Gone(r.phase) then 1 else 0)
    decreases |readers|
  {
    var n := |readers| - 1;
    if i < n {
      LiveAfter(readers[..n], i, r);
      assert readers[i := r][..n] == readers[..n][i := r];
    } else {
      assert readers[i := r][..n] == readers[..n];
    }
  }

  lemma {:induction false} AllLive(relays: nat)
    ensures LiveReaders(Started(relays).readers) == relays
  {
    if relays > 0 {
      AllLive(relays - 1);
      assert Started(relays).readers[..relays - 1] == Started(relays - 1).readers;
    }
  }

  lemma StepCounts(f: Fanout, s: Step)
    requires Enabled(f, s) && Counted(f)
    ensures Counted(Next(f, s)) && Next(f, s).live >= 0
  {
    match s
    case Read(i, bytes) => LiveAfter(f.readers, i, Reader(Holding, f.readers[i].read + [bytes]));
    case Fail(i) => LiveAfter(f.readers, i, f.readers[i].(phase := Failing));
    case Merge(i) => LiveAfter(f.readers, i, f.readers[i].(phase := Reading));
    case Drop(i) => LiveAfter(f.readers, i, f.readers[i].(phase := Reading));
    case Stop(i) => LiveAfter(f.readers, i, f.readers[i].(phase := Stopped));
    case Leave(i) => LiveAfter(f.readers, i, f.readers[i].(phase := if f.live == 1 then LastOne else Failed));
    case CloseFromReader(i) => LiveAfter(f.readers, i, f.readers[i].(phase := Failed));
    case _ =>
  }

  /** A reader's own move keeps the log faithful as long as nothing it merged becomes held. */
  lemma ReaderMoves(readers: seq<Reader>, log: seq<Merged>, i: nat, r: Reader)
    requires Faithful(readers, log) && i < |readers|
    requires readers[i].read <= r.read && Merges(readers[i]) <= Merges(r) && (r.phase == Holding ==> r.read != [])
    ensures Faithful(readers[i := r], log)
  {
  }

  lemma LogGrows(readers: seq<Reader>, log: seq<Merged>, i: nat)
    requires Faithful(readers, log) && i < |readers| && readers[i].phase == Holding
    ensures readers[i].read != []
    ensures var r := readers[i];
            Faithful(readers[i := r.(phase := Reading)], log + [Merged(i, |r.read| - 1, r.read[|r.read| - 1])])
  {
    var r := readers[i];
    ReaderMoves(readers, log, i, r.(phase := Reading));
    var log' := log + [Merged(i, |r.read| - 1, r.read[|r.read| - 1])];
    assert forall a :: 0 <= a < |log| ==> log'[a] == log[a] && Came(readers, log[a]);
  }

  lemma PopKeepsLog(f: Fanout)
    requires f.backlog != []
    ensures Pop(f).Log() == f.Log()
  {
    assert f.backlog == [f.backlog[0]] + f.backlog[1..];
  }

  lemma StepFaithful(f: Fanout, s: Step)
    requires Enabled(f, s) && Faithful(f.readers, f.Log())
    ensures Faithful(Next(f, s).readers, Next(f, s).Log())
  {
    hide Faithful;
    match s
    case Read(i, bytes) => ReaderMoves(f.readers, f.Log(), i, Reader(Holding, f.readers[i].read + [bytes]));
    case Fail(i) => ReaderMoves(f.readers, f.Log(), i, f.readers[i].(phase := Failing));
    case Merge(i) =>
      LogGrows(f.readers, f.Log(), i);
      var r := f.readers[i];
      assert Next(f, s).Log() == f.Log() + [Merged(i, |r.read| - 1, r.read[|r.read| - 1])];
    case Drop(i) => ReaderMoves(f.readers, f.Log(), i, f.readers[i].(phase := Reading));
    case Stop(i) => ReaderMoves(f.readers, f.Log(), i, f.readers[i].(phase := Stopped));
    case Leave(i) =>
      ReaderMoves(f.readers, f.Log(), i, f.readers[i].(phase := if f.live == 1 then LastOne else Failed));
    case CloseFromReader(i) => ReaderMoves(f.readers, f.Log(), i, f.readers[i].(phase := Failed));
    case Receive => PopKeepsLog(f);
    case Drain => if f.backlog != [] { PopKeepsLog(f); }
    case _ =>
  }

  lemma StepWillClose(f: Fanout, s: Step)
    requires Enabled(f, s) && Counted(f) && WillClose(f)
    ensures WillClose(Next(f, s))
  {
    var g := Next(f, s);
    if g.live == 0 && g.readers != [] && g.closing.Open? {
      if s.Leave? {
        assert g.readers[s.i].phase == LastOne;
      } else {
        var i :| 0 <= i < |f.readers| && f.readers[i].phase == LastOne;
        assert g.readers[i].phase == LastOne;
      }
    }
  }

  /** The bounds that hold throughout. */
  ghost predicate Bounded(f: Fanout) {
    && |f.backlog| <= BACKLOG
    && (f.closing.Signalled? ==> f.closing.closed <= |f.readers|)
    && (f.draining || f.reported ==> f.Done())
  }

  lemma StepBounded(f: Fanout, s: Step)
    requires Enabled(f, s) && Bounded(f)
    ensures Bounded(Next(f, s)) && |Next(f, s).readers| == |f.readers|
  {
  }

  ghost predicate Inv(f: Fanout) {
    Faithful(f.readers, f.Log()) && Counted(f) && WillClose(f) && Bounded(f)
  }

  /** A run: every step enabled where it is taken. */
  ghost predicate Runs(f: Fanout, steps: seq<Step>, g: Fanout)
    decreases |steps|
  {
    if steps == [] then f == g
    else Enabled(f, steps[0]) && Runs(Next(f, steps[0]), steps[1..], g)
  }

  lemma {:induction false} RunKeepsInv(f: Fanout, steps: seq<Step>, g: Fanout)
    requires Inv(f) && Runs(f, steps, g)
    ensures Inv(g) && |g.readers| == |f.readers|
    decreases |steps|
  {
    if steps != [] {
      hide Faithful, Counted, WillClose, Bounded;
      StepFaithful(f, steps[0]);
      StepCounts(f, steps[0]);
      StepWillClose(f, steps[0]);
      StepBounded(f, steps[0]);
      hide Next, Enabled;
      RunKeepsInv(Next(f, steps[0]), steps[1..], g);
    }
  }

  /** Closure is reported only when the fanout is done and the backlog is empty. */
  lemma ReportsOnlyWhenDrained(f: Fanout, s: Step)
    requires Enabled(f, s) && Bounded(f) && !f.reported && Next(f, s).reported
    ensures f.Done() && f.backlog == []
  {
  }

  /** What has been merged stays merged until it is received, in that order. */
  lemma MergedIsKept(f: Fanout, s: Step)
    requires Enabled(f, s)
    ensures f.Log() <= Next(f, s).Log() && f.received <= Next(f, s).received
  {
    if (s.Receive? || s.Drain?) && f.backlog != [] {
      PopKeepsLog(f);
    }
  }

  function Signals(steps: seq<Step>): nat {
    if steps == [] then 0 else (if steps[0].Signal? then 1 else 0) + Signals(steps[1..])
  }

  function RelayCloses(steps: seq<Step>): nat {
    if steps == [] then 0 else (if steps[0].CloseRelay? then 1 else 0) + RelayCloses(steps[1..])
  }

  function ClosedSoFar(f: Fanout): nat {
    if f.closing.Signalled? then f.closing.closed else 0
  }

  /** The done channel is closed once and each relay once, however many closes are called for. */
  lemma {:induction false} ClosesOnce(f: Fanout, steps: seq<Step>, g: Fanout)
    requires Runs(f, steps, g)
    ensures Signals(steps) == (if g.Done() then 1 else 0) - (if f.Done() then 1 else 0)
    ensures RelayCloses(steps) == ClosedSoFar(g) - ClosedSoFar(f)
    decreases |steps|
  {
    if steps != [] {
      ClosesOnce(Next(f, steps[0]), steps[1..], g);
    }
  }

  /** What has arrived from one relay, in order of arrival. */
  function From(log: seq<Merged>, i: nat): seq<Merged> {
    if log == [] then []
    else From(log[..|log| - 1], i) + if log[|log| - 1].relay == i then [log[|log| - 1]] else []
  }

  /** Increasing numbers pick a subsequence. */
  ghost predicate Picks(part: seq<Merged>, read: seq<Bytes>) {
    && (forall a :: 0 <= a < |part| ==> part[a].number < |read| && part[a].bytes == read[part[a].number])
    && (forall a, b :: 0 <= a < b < |part| ==> part[a].number < part[b].number)
  }

  lemma {:induction false} FromIsOf(log: seq<Merged>, i: nat, a: nat)
    requires a < |From(log, i)|
    ensures From(log, i)[a].relay == i && From(log, i)[a] in log
    decreases |log|
  {
    if a < |From(log[..|log| - 1], i)| {
      FromIsOf(log[..|log| - 1], i, a);
    }
  }

  lemma PicksSnoc(part: seq<Merged>, read: seq<Bytes>, m: Merged)
    requires Picks(part, read) && m.number < |read| && m.bytes == read[m.number]
    requires forall a :: 0 <= a < |part| ==> part[a].number < m.number
    ensures Picks(part + [m], read)
  {
  }

  lemma FaithfulFront(readers: seq<Reader>, log: seq<Merged>)
    requires Faithful(readers, log) && log != []
    ensures Faithful(readers, log[..|log| - 1]) && Came(readers, log[|log| - 1])
    ensures forall m :: m in log[..|log| - 1] && m.relay == log[|log| - 1].relay ==> m.number < log[|log| - 1].number
  {
  }

  lemma {:induction false} FromPicks(readers: seq<Reader>, log: seq<Merged>, i: nat)
    requires Faithful(readers, log) && i < |readers|
    ensures Picks(From(log, i), readers[i].read)
    decreases |log|
  {
    if log != [] {
      var front, m := log[..|log| - 1], log[|log| - 1];
      FaithfulFront(readers, log);
      hide Faithful;
      FromPicks(readers, front, i);
      if m.relay == i {
        forall a | 0 <= a < |From(front, i)| ensures From(front, i)[a].number < m.number {
          FromIsOf(front, i, a);
        }
        PicksSnoc(From(front, i), readers[i].read, m);
      }
    }
  }

  /** In every interleaving, from any number of relays: the packets received over a relay are a
      subsequence of what it read, the backlog is bounded, the live count is that of the readers
      that have not failed, nothing is closed twice, and once the last reader has failed the close
      has begun or is about to. */
  lemma FanoutIsSafe(relays: nat, steps: seq<Step>, g: Fanout)
    requires Runs(Started(relays), steps, g)
    ensures |g.readers| == relays && forall i :: 0 <= i < relays ==> Picks(From(g.received, i), g.readers[i].read)
    ensures |g.backlog| <= BACKLOG && g.live == LiveReaders(g.readers)
    ensures Signals(steps) <= 1 && RelayCloses(steps) <= relays
    ensures WillClose(g) && (g.reported ==> g.Done())
  {
    var f := Started(relays);
    AllLive(relays);
    assert Inv(f);
    RunKeepsInv(f, steps, g);
    ClosesOnce(f, steps, g);
    assert Faithful(g.readers, g.received) by {
      assert forall a :: 0 <= a < |g.received| ==> g.received[a] == g.Log()[a];
    }
    forall i | 0 <= i < relays ensures Picks(From(g.received, i), g.readers[i].read) {
      FromPicks(g.readers, g.received, i);
    }
  }

  // ----- nothing is lost but on overflow or after the close -----

  function Payloads(part: seq<Merged>): (p: seq<Bytes>)
    ensures |p| == |part| && forall a :: 0 <= a < |p| ==> p[a] == part[a].bytes
  {
    seq(|part|, a requires 0 <= a < |part| => part[a].bytes)
  }

  /** A merge puts the packet its reader holds, the last one read, behind the backlog. */
  lemma MergeAppends(f: Fanout, i: nat)
    requires Enabled(f, Merge(i))
    ensures var g, read := Next(f, Merge(i)), f.readers[i].read;
            && |g.backlog| == |f.backlog| + 1 && g.backlog[..|f.backlog|] == f.backlog
            && g.backlog[|f.backlog|].relay == i && g.backlog[|f.backlog|].bytes == read[|read| - 1]
            && g.received == f.received && g.readers[i] == Reader(Reading, read)
            && Payloads(From(g.Log(), i)) == Payloads(From(f.Log(), i)) + [read[|read| - 1]]
            && forall j :: 0 <= j < |f.readers| && j != i ==>
                 g.readers[j] == f.readers[j] && From(g.Log(), j) == From(f.Log(), j)
  {
    var m := Next(f, Merge(i)).backlog[|f.backlog|];
    assert Next(f, Merge(i)).Log() == f.Log() + [m];
    assert (f.Log() + [m])[..|f.Log()|] == f.Log();
  }

  /** The receiver takes the packet that has waited longest. */
  lemma ReceiveTakesOldest(f: Fanout, s: Step)
    requires Enabled(f, s) && (s.Receive? || s.Drain?) && f.backlog != []
    ensures Next(f, s).received == f.received + [f.backlog[0]] && Next(f, s).backlog == f.backlog[1..]
  {
  }

  /** Of every relay everything read is merged, but for a packet held. */
  ghost predicate Complete(f: Fanout) {
    forall i :: 0 <= i < |f.readers| ==>
      0 <= Merges(f.readers[i]) && Payloads(From(f.Log(), i)) == f.readers[i].read[..Merges(f.readers[i])]
  }

  lemma MergeComplete(f: Fanout, i: nat)
    requires Enabled(f, Merge(i)) && Complete(f)
    ensures Complete(Next(f, Merge(i)))
  {
    hide From, Payloads;
    var g, read := Next(f, Merge(i)), f.readers[i].read;
    MergeAppends(f, i);
    assert read[..|read| - 1] + [read[|read| - 1]] == read && read[..|read|] == read;
  }

  lemma ReaderComplete(f: Fanout, i: nat, r: Reader)
    requires Complete(f) && i < |f.readers|
    requires f.readers[i].read <= r.read && Merges(r) == Merges(f.readers[i])
    ensures Complete(f.With(i, r))
  {
    hide From, Payloads;
    assert f.With(i, r).Log() == f.Log();
    assert r.read[..Merges(r)] == f.readers[i].read[..Merges(f.readers[i])];
  }

  lemma LogComplete(f: Fanout, g: Fanout)
    requires Complete(f) && g.readers == f.readers && g.Log() == f.Log()
    ensures Complete(g)
  {
    hide From, Payloads;
  }

  lemma StepComplete(f: Fanout, s: Step)
    requires Enabled(f, s) && Complete(f) && !s.Drop? && !s.Stop?
    ensures Complete(Next(f, s))
  {
    hide Complete;
    match s
    case Read(i, bytes) => ReaderComplete(f, i, Reader(Holding, f.readers[i].read + [bytes]));
    case Fail(i) => ReaderComplete(f, i, f.readers[i].(phase := Failing));
    case Merge(i) => MergeComplete(f, i);
    case Leave(i) => LeaveComplete(f, i);
    case CloseFromReader(i) =>
      ReaderComplete(f, i, f.readers[i].(phase := Failed));
      LogComplete(f.With(i, f.readers[i].(phase := Failed)), Next(f, s));
    case Receive =>
      PopKeepsLog(f);
      LogComplete(f, Next(f, s));
    case Drain =>
      if f.backlog != [] { PopKeepsLog(f); }
      LogComplete(f, Next(f, s));
    case CloseFromOutside | Signal | CloseRelay | NoticeDone => LogComplete(f, Next(f, s));
    case Drop(_) | Stop(_) =>
  }

  lemma LeaveComplete(f: Fanout, i: nat)
    requires Enabled(f, Leave(i)) && Complete(f)
    ensures Complete(Next(f, Leave(i)))
  {
    hide Complete;
    var r := f.readers[i].(phase := if f.live == 1 then LastOne else Failed);
    ReaderComplete(f, i, r);
    LogComplete(f.With(i, r), Next(f, Leave(i)));
  }

  lemma {:induction false} RunComplete(f: Fanout, steps: seq<Step>, g: Fanout)
    requires Runs(f, steps, g) && Complete(f) && forall k :: 0 <= k < |steps| ==> !steps[k].Drop? && !steps[k].Stop?
    ensures Complete(g)
    decreases |steps|
  {
    hide Complete, Enabled, Next;
    if steps != [] {
      StepComplete(f, steps[0]);
      RunComplete(Next(f, steps[0]), steps[1..], g);
    }
  }

  /** As long as no packet meets a full backlog or the close, what is received and what waits of a
      relay is everything read from it, in order, but for a packet in its reader's hands. */
  lemma EverythingArrives(relays: nat, steps: seq<Step>, g: Fanout)
    requires Runs(Started(relays), steps, g)
    requires forall k :: 0 <= k < |steps| ==> !steps[k].Drop? && !steps[k].Stop?
    ensures |g.readers| == relays
    ensures forall i :: 0 <= i < relays ==>
              var read := g.readers[i].read;
              if g.readers[i].phase == Holding
              then read != [] && Payloads(From(g.Log(), i)) == read[..|read| - 1]
              else Payloads(From(g.Log(), i)) == read
  {
    FanoutIsSafe(relays, steps, g);
    RunComplete(Started(relays), steps, g);
    forall i | 0 <= i < relays && g.readers[i].phase != Holding
      ensures Payloads(From(g.Log(), i)) == g.readers[i].read
    {
      assert g.readers[i].read[..|g.readers[i].read|] == g.readers[i].read;
    }
  }

  // ----- the close comes -----

  lemma {:induction false} RunAppend(f: Fanout, a: seq<Step>, g: Fanout, b: seq<Step>, h: Fanout)
    requires Runs(f, a, g) && Runs(g, b, h)
    ensures Runs(f, a + b, h)
    decreases |a|
  {
    hide Enabled, Next;
    if a == [] {
      assert a + b == b;
    } else {
      assert (a + b)[1..] == a[1..] + b;
      RunAppend(Next(f, a[0]), a[1..], g, b, h);
    }
  }

  lemma {:induction false} RelaysClose(f: Fanout) returns (steps: seq<Step>, g: Fanout)
    requires f.closing.Signalled? && f.closing.closed <= |f.readers|
    ensures Runs(f, steps, g) && g.Done() && g.closing.closed == |g.readers| == |f.readers|
    decreases |f.readers| - f.closing.closed
  {
    if f.closing.closed == |f.readers| {
      steps, g := [], f;
    } else {
      steps, g := RelaysClose(Next(f, CloseRelay));
      steps := [CloseRelay] + steps;
    }
  }

  /** From any state in which the last reader has gone, the close can complete: nothing but the
      steps of that reader and of the one close is needed to signal it and to close every relay. */
  lemma LastFailureCloses(f: Fanout) returns (steps: seq<Step>, g: Fanout)
    requires Inv(f) && f.live == 0 && f.readers != []
    ensures Runs(f, steps, g) && g.Done() && g.closing.closed == |g.readers| == |f.readers|
  {
    hide Faithful, Counted;
    var f1, first := f, [];
    if f.closing.Open? {
      var i :| 0 <= i < |f.readers| && f.readers[i].phase == LastOne;
      f1, first := Next(f, CloseFromReader(i)), [CloseFromReader(i)];
      assert Runs(f1, [], f1) && first[1..] == [];
    }
    var f2, second := f1, [];
    if f1.closing.Flagged? {
      f2, second := Next(f1, Signal), [Signal];
      assert Runs(f2, [], f2) && second[1..] == [];
    }
    var last;
    last, g := RelaysClose(f2);
    RunAppend(f, first, f1, second, f2);
    RunAppend(f, first + second, f2, last, g);
    steps := first + second + last;
  }

  /** With the fanout done and no reader in its way, the receiver gets all that waits, in order, and
      then the report of the closure. */
  lemma {:induction false} ClosureIsReported(f: Fanout) returns (steps: seq<Step>, g: Fanout)
    requires f.Done()
    ensures Runs(f, steps, g) && g.reported && g.backlog == [] && g.received == f.Log()
    decreases |f.backlog|
  {
    var f1, first := f, [];
    if !f.draining {
      f1, first := Next(f, NoticeDone), [NoticeDone];
      assert Runs(f1, [], f1) && first[1..] == [];
    }
    var f2 := Next(f1, Drain);
    assert Runs(f2, [], f2) && [Drain][1..] == [];
    assert Runs(f1, [Drain], f2);
    RunAppend(f, first, f1, [Drain], f2);
    if f.backlog == [] {
      steps, g := first + [Drain], f2;
      assert f.Log() == f.received;
    } else {
      PopKeepsLog(f1);
      var rest;
      rest, g := ClosureIsReported(f2);
      RunAppend(f, first + [Drain], f2, rest, g);
      steps := first + [Drain] + rest;
    }
  }
}
