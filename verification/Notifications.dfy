/**
  Notifications of a live call: the queue that any goroutine, a running callback included, may add
  to; the generation-checked group state callback on top of it; the hand flags kept in the stored
  roster; and the one-shot accept callback.
 */
module Notifications {
  import opened Common

  // ----- the queue, in every interleaving -----

  /** The queue with its whole history.  Each critical section is one step; a notification that is
      running is between two of the drainer's critical sections. */
  datatype Queue<T> = Queue(
    queue: seq<T>,
    notifyRunning: bool,
    running: seq<T>,
    enqueued: seq<T>,
    finished: seq<T>)
  {
    /** The drainer takes the next notification out, or retires. */
    function TakeNext(): Queue<T> {
      if queue == [] then this.(notifyRunning := false, running := [])
      else this.(notifyRunning := true, running := [queue[0]], queue := queue[1..])
    }

    /** Anyone adds a notification; if nobody drains, the caller starts to. */
    function Enqueue(n: T): Queue<T> {
      var added := this.(queue := queue + [n], enqueued := enqueued + [n]);
      if notifyRunning then added else added.TakeNext()
    }

    /** The running notification returns. */
    function Return(): Queue<T> {
      if running == [] then this else this.(finished := finished + running).TakeNext()
    }

    /** One at a time, in order, each once; and nobody draining means nothing left. */
    ghost predicate Orderly() {
      && enqueued == finished + running + queue
      && |running| <= 1
      && (notifyRunning <==> running != [])
      && (!notifyRunning ==> queue == [])
    }
  }

  datatype QueueStep<T> = Enqueuing(n: T) | Returning

  function RunQueue<T>(steps: seq<QueueStep<T>>): Queue<T> {
    if steps == [] then Queue([], false, [], [], [])
    else
      var q, s := RunQueue(steps[..|steps| - 1]), steps[|steps| - 1];
      if s.Enqueuing? then q.Enqueue(s.n) else q.Return()
  }

  function Enqueued<T>(steps: seq<QueueStep<T>>): seq<T> {
    if steps == [] then []
    else
      var s := steps[|steps| - 1];
      Enqueued(steps[..|steps| - 1]) + if s.Enqueuing? then [s.n] else []
  }

  lemma TakeNextIsOrderly<T>(q: Queue<T>)
    requires q.enqueued == q.finished + q.queue && q.running == []
    ensures q.TakeNext().Orderly()
  {
    if q.queue != [] {
      assert q.queue == [q.queue[0]] + q.queue[1..];
    }
  }

  lemma EnqueueIsOrderly<T>(q: Queue<T>, n: T)
    requires q.Orderly()
    ensures q.Enqueue(n).Orderly() && q.Enqueue(n).enqueued == q.enqueued + [n]
  {
    var added := q.(queue := q.queue + [n], enqueued := q.enqueued + [n]);
    assert added.enqueued == q.finished + q.running + (q.queue + [n]);
    if !q.notifyRunning {
      assert added.enqueued == added.finished + added.queue;
      TakeNextIsOrderly(added);
    }
  }

  lemma ReturnIsOrderly<T>(q: Queue<T>)
    requires q.Orderly()
    ensures q.Return().Orderly() && q.Return().enqueued == q.enqueued
  {
    if q.running != [] {
      TakeNextIsOrderly(q.(finished := q.finished + q.running, running := []));
    }
  }

  /** In every interleaving of enqueues and returns, re-entrant ones included. */
  lemma {:induction false} QueueIsOrderly<T>(steps: seq<QueueStep<T>>)
    ensures RunQueue(steps).Orderly() && RunQueue(steps).enqueued == Enqueued(steps)
    ensures !RunQueue(steps).notifyRunning ==> RunQueue(steps).finished == Enqueued(steps)
  {
    if steps != [] {
      var q, s := RunQueue(steps[..|steps| - 1]), steps[|steps| - 1];
      QueueIsOrderly(steps[..|steps| - 1]);
      if s.Enqueuing? {
        EnqueueIsOrderly(q, s.n);
      } else {
        ReturnIsOrderly(q);
      }
    }
  }

  // ----- the group state callback -----

  datatype State = State(transactionID: nat, roster: seq<string>)

  /** A queued notification knows the registration it is meant for. */
  datatype Note = Note(generation: nat, state: State)

  /** A call driven by one goroutine; its callbacks may act on it again.  `seen` are the calls made
      to registered callbacks. */
  datatype Call = Call(
    state: Option<State>,
    registered: bool,
    generation: nat,
    notifications: Queue<Note>,
    seen: seq<Note>)

  /** A notification that starts is delivered if its registration is still the current one. */
  function Started(c: Call, q: Queue<Note>): Call {
    if q.running != [] && q.running[0].generation == c.generation && c.registered then
      c.(notifications := q, seen := c.seen + q.running)
    else
      c.(notifications := q)
  }

  function Notify(c: Call, n: Note): Call {
    var q := c.notifications.Enqueue(n);
    if c.notifications.notifyRunning then c.(notifications := q) else Started(c, q)
  }

  function OnGroupState(c: Call, fn: bool): Call {
    var c' := c.(registered := fn, generation := c.generation + 1);
    if fn && c.state.Some? then Notify(c', Note(c'.generation, c.state.value)) else c'
  }

  /** A state is stored unless a numbered one at least as new already is. */
  predicate Accepts(stored: Option<State>, s: State) {
    stored.None? || stored.value.transactionID == 0 || s.transactionID > stored.value.transactionID
  }

  function SetGroupState(c: Call, s: State): Call {
    if !Accepts(c.state, s) then c
    else
      var c' := c.(state := Some(s));
      if c.registered then Notify(c', Note(c.generation, s)) else c'
  }

  function CallbackReturns(c: Call): Call {
    if c.notifications.running == [] then c else Started(c, c.notifications.Return())
  }

  datatype CallOp = Register(fn: bool) | Set(s: State) | Returned

  function RunCall(ops: seq<CallOp>): Call {
    if ops == [] then Call(None, false, 0, Queue([], false, [], [], []), [])
    else
      var c, op := RunCall(ops[..|ops| - 1]), ops[|ops| - 1];
      match op
      case Register(fn) => OnGroupState(c, fn)
      case Set(s) => SetGroupState(c, s)
      case Returned => CallbackReturns(c)
  }

  // What a registration is owed, said without the queue: a replay, then every accepted state.

  function Stored(ops: seq<CallOp>): Option<State> {
    if ops == [] then None
    else
      var before, op := Stored(ops[..|ops| - 1]), ops[|ops| - 1];
      if op.Set? && Accepts(before, op.s) then Some(op.s) else before
  }

  function Owed(ops: seq<CallOp>): seq<State> {
    if ops == [] then []
    else
      var front, op := ops[..|ops| - 1], ops[|ops| - 1];
      match op
      case Register(fn) => if Stored(front).Some? then [Stored(front).value] else []
      case Set(s) => if Accepts(Stored(front), s) then Owed(front) + [s] else Owed(front)
      case Returned => Owed(front)
  }

  function Addressed(notes: seq<Note>, generation: nat): seq<State> {
    if notes == [] then []
    else
      var n := notes[|notes| - 1];
      Addressed(notes[..|notes| - 1], generation) + if n.generation == generation then [n.state] else []
  }

  lemma AddressedSnoc(notes: seq<Note>, n: Note, generation: nat)
    ensures Addressed(notes + [n], generation) ==
            Addressed(notes, generation) + if n.generation == generation then [n.state] else []
  {
    assert (notes + [n])[..|notes|] == notes;
  }

  lemma {:induction false} AddressedCons(n: Note, notes: seq<Note>, generation: nat)
    ensures Addressed([n] + notes, generation) ==
            (if n.generation == generation then [n.state] else []) + Addressed(notes, generation)
    decreases |notes|
  {
    if notes == [] {
      assert [n] + notes == [n] && [n][..0] == [];
    } else {
      var front := notes[..|notes| - 1];
      assert ([n] + notes)[..|notes|] == [n] + front;
      AddressedCons(n, front, generation);
    }
  }

  lemma {:induction false} AddressedToNobody(notes: seq<Note>, generation: nat)
    requires forall n :: n in notes ==> n.generation < generation
    ensures Addressed(notes, generation) == []
    decreases |notes|
  {
    if notes != [] {
      AddressedToNobody(notes[..|notes| - 1], generation);
    }
  }

  /** No notification is meant for a registration yet to come. */
  ghost predicate Past(c: Call) {
    && (forall n :: n in c.notifications.queue ==> n.generation <= c.generation)
    && (forall n :: n in c.seen ==> n.generation <= c.generation)
  }

  /** What the current registration has seen and what waits for it are what it is owed. */
  ghost predicate Kept(c: Call, owed: seq<State>) {
    && c.notifications.Orderly() && Past(c)
    && (c.registered ==> Addressed(c.seen, c.generation) + Addressed(c.notifications.queue, c.generation) == owed)
  }

  ghost predicate Accounted(c: Call, queue: seq<Note>, owed: seq<State>) {
    && (forall n :: n in queue ==> n.generation <= c.generation)
    && (forall n :: n in c.seen ==> n.generation <= c.generation)
    && (c.registered ==> Addressed(c.seen, c.generation) + Addressed(queue, c.generation) == owed)
  }

  /** Taking the next notification out moves at most one state from waiting to seen. */
  lemma StartKeeps(c: Call, q: Queue<Note>, owed: seq<State>)
    requires Accounted(c, q.queue, owed)
    ensures Accounted(Started(c, q.TakeNext()), q.TakeNext().queue, owed)
  {
    hide Addressed;
    if q.queue != [] {
      var n, rest := q.queue[0], q.queue[1..];
      var mine := if n.generation == c.generation then [n.state] else [];
      assert q.queue == [n] + rest;
      AddressedCons(n, rest, c.generation);
      AddressedSnoc(c.seen, n, c.generation);
      if c.registered {
        Shift(Addressed(c.seen, c.generation), mine, Addressed(rest, c.generation));
      }
    }
  }

  lemma Shift(seen: seq<State>, mine: seq<State>, rest: seq<State>)
    ensures (seen + mine) + rest == seen + (mine + rest) && seen + [] == seen
  {
  }

  lemma NotifyKeeps(c: Call, n: Note, owed: seq<State>)
    requires Kept(c, owed) && c.registered && n.generation == c.generation
    ensures Kept(Notify(c, n), owed + [n.state])
  {
    var q := c.notifications;
    EnqueueIsOrderly(q, n);
    AddressedSnoc(q.queue, n, c.generation);
    assert Accounted(c, q.queue + [n], owed + [n.state]);
    if !q.notifyRunning {
      StartKeeps(c, q.(queue := q.queue + [n], enqueued := q.enqueued + [n]), owed + [n.state]);
    }
  }

  lemma ReturnKeeps(c: Call, owed: seq<State>)
    requires Kept(c, owed)
    ensures Kept(CallbackReturns(c), owed)
  {
    var q := c.notifications;
    ReturnIsOrderly(q);
    if q.running != [] {
      StartKeeps(c, q.(finished := q.finished + q.running), owed);
    }
  }

  lemma RegisteredAnew(c: Call, fn: bool, owed: seq<State>)
    requires Kept(c, owed)
    ensures var c' := c.(registered := fn, generation := c.generation + 1);
            Kept(c', []) && forall any :: !fn ==> Kept(c', any)
  {
    AddressedToNobody(c.seen, c.generation + 1);
    AddressedToNobody(c.notifications.queue, c.generation + 1);
    hide Addressed;
  }

  lemma RegisterKeeps(c: Call, fn: bool, owed: seq<State>)
    requires Kept(c, owed)
    ensures Kept(OnGroupState(c, fn), if c.state.Some? then [c.state.value] else [])
    ensures OnGroupState(c, fn).state == c.state
  {
    var c' := c.(registered := fn, generation := c.generation + 1);
    RegisteredAnew(c, fn, owed);
    hide Kept;
    if fn && c.state.Some? {
      NotifyKeeps(c', Note(c'.generation, c.state.value), []);
      assert [] + [c.state.value] == [c.state.value];
    }
  }

  /** However registrations, states and returning callbacks interleave: what the current
      registration has seen, followed by what waits for it, is its replay and then every state
      accepted since, each once and in order; and with nothing running nothing waits. */
  lemma {:induction false} CallbackSeesEverything(ops: seq<CallOp>)
    ensures RunCall(ops).state == Stored(ops)
    ensures Kept(RunCall(ops), Owed(ops))
    ensures RunCall(ops).registered && !RunCall(ops).notifications.notifyRunning ==>
              Addressed(RunCall(ops).seen, RunCall(ops).generation) == Owed(ops)
  {
    if ops != [] {
      var front := ops[..|ops| - 1];
      var c := RunCall(front);
      CallbackSeesEverything(front);
      hide Kept;
      match ops[|ops| - 1]
      case Register(fn) => RegisterKeeps(c, fn, Owed(front));
      case Set(s) =>
        if Accepts(c.state, s) {
          SetKeeps(c, s, Owed(front));
        }
      case Returned => ReturnKeeps(c, Owed(front));
    }
    IdleHasSeenAll(RunCall(ops), Owed(ops));
  }

  lemma SetKeeps(c: Call, s: State, owed: seq<State>)
    requires Kept(c, owed) && Accepts(c.state, s)
    ensures Kept(SetGroupState(c, s), owed + [s]) && SetGroupState(c, s).state == Some(s)
  {
    var c' := c.(state := Some(s));
    assert Kept(c', owed);
    if c.registered {
      NotifyKeeps(c', Note(c.generation, s), owed);
    }
  }

  lemma IdleHasSeenAll(c: Call, owed: seq<State>)
    requires Kept(c, owed)
    ensures c.registered && !c.notifications.notifyRunning ==> Addressed(c.seen, c.generation) == owed
  {
    if c.registered && !c.notifications.notifyRunning {
      assert Addressed(c.notifications.queue, c.generation) == [];
    }
  }

  // ----- which states are accepted -----

  ghost predicate Numbered(ops: seq<CallOp>) {
    forall i :: 0 <= i < |ops| && ops[i].Set? ==> ops[i].s.transactionID > 0
  }

  /** Of numbered states the one stored is the newest that came, whatever their order. */
  lemma {:induction false} StoredIsNewest(ops: seq<CallOp>)
    requires Numbered(ops)
    ensures Stored(ops).None? <==> forall i :: 0 <= i < |ops| ==> !ops[i].Set?
    ensures Stored(ops).Some? ==>
              Set(Stored(ops).value) in ops &&
              forall i :: 0 <= i < |ops| && ops[i].Set? ==> ops[i].s.transactionID <= Stored(ops).value.transactionID
  {
    if ops != [] {
      var front, last := ops[..|ops| - 1], ops[|ops| - 1];
      StoredIsNewest(front);
      assert ops == front + [last];
    }
  }

  /** A registration is told of numbered states in increasing order, the newest last. */
  lemma {:induction false} OwedIncreases(ops: seq<CallOp>)
    requires Numbered(ops)
    ensures forall i, j :: 0 <= i < j < |Owed(ops)| ==> Owed(ops)[i].transactionID < Owed(ops)[j].transactionID
    ensures Owed(ops) != [] ==> Stored(ops) == Some(Owed(ops)[|Owed(ops)| - 1])
  {
    if ops != [] {
      OwedIncreases(ops[..|ops| - 1]);
      StoredIsNewest(ops[..|ops| - 1]);
    }
  }

  /** A state without a number gives way to whatever comes next, and gives way only. */
  lemma UnnumberedGivesWay(ops: seq<CallOp>, s: State)
    ensures Stored(ops).Some? && Stored(ops).value.transactionID == 0 ==> Stored(ops + [Set(s)]) == Some(s)
    ensures Stored(ops).Some? && Stored(ops).value.transactionID > 0 && s.transactionID == 0 ==>
              Stored(ops + [Set(s)]) == Stored(ops)
    ensures Stored(ops).None? ==> Stored(ops + [Set(s)]) == Some(s)
  {
    assert (ops + [Set(s)])[..|ops|] == ops;
  }

  // ----- raised hands -----

  /** A roster entry: the participant's bare identity and the flag shown for it. */
  datatype Participant = Participant(key: string, handRaised: bool)

  datatype Hands = Hands(raised: set<string>, roster: seq<Participant>)

  datatype HandOp = Raise(key: string) | Lower(key: string) | Roster(keys: seq<string>)

  function AfterHand(h: Hands, op: HandOp): Hands {
    match op
    case Raise(key) => Hands(h.raised + {key}, Flagged(h.roster, key, true))
    case Lower(key) => Hands(h.raised - {key}, Flagged(h.roster, key, false))
    case Roster(keys) =>
      Hands(h.raised, seq(|keys|, i requires 0 <= i < |keys| => Participant(keys[i], keys[i] in h.raised)))
  }

  function Flagged(roster: seq<Participant>, key: string, raised: bool): (r: seq<Participant>)
    ensures |r| == |roster|
  {
    seq(|roster|, i requires 0 <= i < |roster| =>
      if roster[i].key == key then roster[i].(handRaised := raised) else roster[i])
  }

  function RunHands(ops: seq<HandOp>): Hands {
    if ops == [] then Hands({}, []) else AfterHand(RunHands(ops[..|ops| - 1]), ops[|ops| - 1])
  }

  /** The latest word on a participant, rosters aside. */
  function LastWord(ops: seq<HandOp>, key: string): bool {
    if ops == [] then false
    else
      match ops[|ops| - 1]
      case Raise(k) => k == key || LastWord(ops[..|ops| - 1], key)
      case Lower(k) => k != key && LastWord(ops[..|ops| - 1], key)
      case Roster(_) => LastWord(ops[..|ops| - 1], key)
  }

  /** The participants of the last roster that came. */
  function LastRoster(ops: seq<HandOp>): seq<string> {
    if ops == [] then []
    else if ops[|ops| - 1].Roster? then ops[|ops| - 1].keys
    else LastRoster(ops[..|ops| - 1])
  }

  /** In every stored roster, old or new, a flag is the latest word on that participant, and the
      roster is the last that came. */
  lemma {:induction false} HandsAreCurrent(ops: seq<HandOp>)
    ensures forall key :: key in RunHands(ops).raised <==> LastWord(ops, key)
    ensures forall i :: 0 <= i < |RunHands(ops).roster| ==>
              RunHands(ops).roster[i].handRaised == LastWord(ops, RunHands(ops).roster[i].key)
    ensures |RunHands(ops).roster| == |LastRoster(ops)|
    ensures forall i :: 0 <= i < |LastRoster(ops)| ==> RunHands(ops).roster[i].key == LastRoster(ops)[i]
  {
    if ops != [] {
      HandsAreCurrent(ops[..|ops| - 1]);
    }
  }

  // ----- the one-shot accept callback -----

  datatype AcceptOp = OnPeerAccept(fn: bool) | MarkPeerAccepted

  datatype Accepting = Accepting(fn: bool, peerAccepted: bool, notified: bool, calls: nat)

  function AfterAccept(a: Accepting, op: AcceptOp): Accepting {
    var a' := if op.OnPeerAccept? then a.(fn := op.fn) else a.(peerAccepted := true);
    if a'.peerAccepted && !a'.notified && a'.fn then a'.(notified := true, calls := a'.calls + 1) else a'
  }

  function RunAccept(ops: seq<AcceptOp>): Accepting {
    if ops == [] then Accepting(false, false, false, 0) else AfterAccept(RunAccept(ops[..|ops| - 1]), ops[|ops| - 1])
  }

  /** A callback is in place after some operation with the peer's accept already in. */
  ghost predicate Met(ops: seq<AcceptOp>) {
    exists n :: 0 < n <= |ops| && RunAccept(ops[..n]).fn && RunAccept(ops[..n]).peerAccepted
  }

  /** The accept is reported once if a callback and the accept ever meet, whichever came first,
      and otherwise never. */
  lemma {:induction false} AcceptReportedOnce(ops: seq<AcceptOp>)
    ensures RunAccept(ops).calls == if Met(ops) then 1 else 0
    ensures RunAccept(ops).notified == Met(ops)
  {
    if ops != [] {
      var front := ops[..|ops| - 1];
      AcceptReportedOnce(front);
      assert forall n :: 0 < n <= |front| ==> ops[..n] == front[..n];
      assert ops[..|ops|] == ops;
    }
  }
}
