/**
  Which operations keep the engine's flags and the live sender in agreement in every interleaving:
  an exact guard for each first section, and whole runs under them.
 */
module VideoGuards {
  import opened Common
  import VideoNegotiation
  import opened VideoInterleaving
  import opened VideoAgreement

  // ----- which operations keep it: an exact guard for each -----

  /** A thread that leaves the flags alone and writes to the live sender no more. */
  predicate Spent(t: Task, live: nat) {
    && LastWrite(t, live, true) == None == LastWrite(t, live, false)
    && Drops(t, true) == Never == Drops(t, false)
  }

  /** A thread that can at most switch the live sender off. */
  predicate OnlyOff(t: Task, live: nat) {
    && (LastWrite(t, live, true) == None || LastWrite(t, live, true) == Some(OFF))
    && (LastWrite(t, live, false) == None || LastWrite(t, live, false) == Some(OFF))
  }

  /** A thread that leaves the flags alone and can at most switch the live sender on, ungated. */
  predicate OnlyOn(t: Task, live: nat) {
    && (LastWrite(t, live, true) == None || LastWrite(t, live, true) == Some(ON))
    && (LastWrite(t, live, false) == None || LastWrite(t, live, false) == Some(ON))
    && Drops(t, true) == Never == Drops(t, false)
  }

  /** Switching the camera on, with or without a gate, needs every other thread to be spent. */
  ghost predicate OnGuard(s: State) {
    s.live.Some? ==> forall k :: k in s.tasks ==> Spent(s.tasks[k], s.live.value)
  }

  ghost predicate OffGuard(s: State) {
    s.live.Some? ==> forall k :: k in s.tasks ==> OnlyOff(s.tasks[k], s.live.value)
  }

  ghost predicate OpenGuard(s: State) {
    s.live.Some? ==> forall k :: k in s.tasks ==> OnlyOn(s.tasks[k], s.live.value)
  }

  /** A sender made to match the flags stays so if what threads take back of them changes nothing,
      or is taken back from the sender of the moment. */
  ghost predicate PublishGuard(s: State) {
    || (exists k :: k in s.tasks && s.tasks[k].TakeBack? && s.tasks[k].undo == Current)
    || (forall k, ok :: k in s.tasks && Drops(s.tasks[k], ok) != Current ==>
          Dropped(s.flags, Drops(s.tasks[k], ok)) == s.flags)
  }

  ghost predicate ToggleGuard(s: State, enabled: bool) {
    s.Parks() || if enabled then OnGuard(s) else OffGuard(s)
  }

  ghost predicate Guarded(s: State, a: Action) {
    match a
    case Toggle(enabled) => ToggleGuard(s, enabled)
    case Resume(k, _) => k in s.tasks && s.tasks[k].ToggleTurn? ==> ToggleGuard(s, s.tasks[k].enabled)
    case Transit(t) => (t.RequestUpgrade? ==> OnGuard(s)) && (t.StopVideo? ==> OffGuard(s))
    case Peer(p) =>
      && (p.PeerEnabled? && s.flags == GATED ==> OpenGuard(s))
      && (p.PeerAccept? ==> OnGuard(s))
      && (p.PeerReject? && s.flags.gate ==> OffGuard(s))
    case Publish => PublishGuard(s)
    case _ => true
  }

  lemma OffExactly(tasks: map<nat, Task>, k: nat, x: Task, sender: Flags, live: nat)
    requires !Touches(At(tasks, k))
    requires LastWrite(x, live, true) == LastWrite(x, live, false) == Some(OFF)
    ensures AllSettle(OFF, sender, tasks[k := x], live) <==> forall j :: j in tasks ==> OnlyOff(tasks[j], live)
  {
    var after := tasks[k := x];
    IdleTask(At(tasks, k), live, true);
    IdleTask(At(tasks, k), live, false);
    assert k in tasks ==> OnlyOff(tasks[k], live);
    hide LastWrite, Drops;
    forall j, ok | AllSettle(OFF, sender, after, live) && j in tasks && j != k
      ensures LastWrite(tasks[j], live, ok) == None || LastWrite(tasks[j], live, ok) == Some(OFF)
    {
      var failing := if ok then {} else {j};
      assert Settles(OFF, sender, after, live, failing) && after[j] == tasks[j];
    }
    if forall j :: j in tasks ==> OnlyOff(tasks[j], live) {
      forall failing ensures Settles(OFF, sender, after, live, failing) {
        assert !NoWrite(after, live, failing) by {
          assert k in after && LastWrite(after[k], live, k !in failing) != None;
        }
      }
    }
  }

  /** What the flags come to when only one thread takes something back. */
  lemma OneDrops(f: Flags, tasks: map<nat, Task>, k: nat, failing: set<nat>)
    requires forall j :: j in tasks && j != k ==> Drops(tasks[j], true) == Never == Drops(tasks[j], false)
    ensures Outcome(f, tasks, failing) == Dropped(f, Drops(At(tasks, k), k !in failing))
  {
    OutcomeSplits(f, tasks, failing, k);
    hide Drops;
  }

  lemma OnExactly(v: Flags, tasks: map<nat, Task>, k: nat, x: Task, sender: Flags, live: nat)
    requires !Touches(At(tasks, k)) && v.local
    requires LastWrite(x, live, true) == Some(v) && LastWrite(x, live, false) == Some(OFF)
    requires Drops(x, true) == Never && Drops(x, false) != Never && Dropped(v, Drops(x, false)) == OFF
    ensures AllSettle(v, sender, tasks[k := x], live) <==> forall j :: j in tasks ==> Spent(tasks[j], live)
  {
    var after := tasks[k := x];
    IdleTask(At(tasks, k), live, true);
    IdleTask(At(tasks, k), live, false);
    assert k in tasks ==> Spent(tasks[k], live);
    hide LastWrite, Drops;
    forall j, ok | AllSettle(v, sender, after, live) && j in tasks && j != k
      ensures LastWrite(tasks[j], live, ok) == None && Drops(tasks[j], ok) == Never
    {
      OnIsAlone(v, after, k, j, ok, sender, live);
    }
    if forall j :: j in tasks ==> Spent(tasks[j], live) {
      forall failing ensures Settles(v, sender, after, live, failing) {
        OneDrops(v, after, k, failing);
        assert !NoWrite(after, live, failing) by {
          assert k in after && LastWrite(after[k], live, k !in failing) != None;
        }
        hide Outcome;
      }
    }
  }

  lemma OnIsAlone(v: Flags, tasks: map<nat, Task>, k: nat, j: nat, ok: bool, sender: Flags, live: nat)
    requires k in tasks && j in tasks && j != k && v.local && AllSettle(v, sender, tasks, live)
    requires LastWrite(tasks[k], live, true) == Some(v) && LastWrite(tasks[k], live, false) == Some(OFF)
    requires Drops(tasks[k], false) != Never
    ensures LastWrite(tasks[j], live, ok) == None && Drops(tasks[j], ok) == Never
  {
    hide LastWrite, Drops;
    var one, two := if ok then {} else {j}, if ok then {k} else {j, k};
    assert Settles(v, sender, tasks, live, one) && Settles(v, sender, tasks, live, two);
    assert k !in one && k in two && (j !in one <==> ok) && (j !in two <==> ok);
    assert !KeepsLocal(tasks, two);
    assert Outcome(v, tasks, one) == v;
    assert KeepsLocal(tasks, one);
  }

  lemma OpenExactly(tasks: map<nat, Task>, k: nat, x: Task, sender: Flags, live: nat)
    requires !Touches(At(tasks, k))
    requires LastWrite(x, live, true) == LastWrite(x, live, false) == Some(ON)
    requires Drops(x, true) == Never == Drops(x, false)
    ensures AllSettle(ON, sender, tasks[k := x], live) <==> forall j :: j in tasks ==> OnlyOn(tasks[j], live)
  {
    var after := tasks[k := x];
    IdleTask(At(tasks, k), live, true);
    IdleTask(At(tasks, k), live, false);
    assert k in tasks ==> OnlyOn(tasks[k], live);
    hide LastWrite, Drops;
    forall j, ok | AllSettle(ON, sender, after, live) && j in tasks && j != k
      ensures Drops(tasks[j], ok) == Never
      ensures LastWrite(tasks[j], live, ok) == None || LastWrite(tasks[j], live, ok) == Some(ON)
    {
      var failing := if ok then {} else {j};
      assert Settles(ON, sender, after, live, failing) && after[j] == tasks[j] && after[k] == x;
      assert Outcome(ON, after, failing) == ON;
      assert KeepsLocal(after, failing);
    }
    if forall j :: j in tasks ==> OnlyOn(tasks[j], live) {
      forall failing ensures Settles(ON, sender, after, live, failing) {
        OneDrops(ON, after, k, failing);
        assert !NoWrite(after, live, failing) by {
          assert k in after && LastWrite(after[k], live, k !in failing) != None;
        }
        hide Outcome;
      }
    }
  }

  // ----- publication -----

  /** Threads of before know the new sender only as that of the moment. */
  lemma NewSenderWrites(t: Task, live: nat, ok: bool)
    requires Sound(t, live)
    ensures LastWrite(t, live, ok) == (if Drops(t, ok) == Current then Some(OFF) else None)
  {
  }

  lemma PublishExactly(f: Flags, tasks: map<nat, Task>, live: nat)
    requires forall k :: k in tasks ==> Sound(tasks[k], live)
    ensures AllSettle(f, f, tasks, live) <==>
            || (exists k :: k in tasks && tasks[k].TakeBack? && tasks[k].undo == Current)
            || (forall k, ok :: k in tasks && Drops(tasks[k], ok) != Current ==> Dropped(f, Drops(tasks[k], ok)) == f)
  {
    forall k, ok | k in tasks
      ensures LastWrite(tasks[k], live, ok) == (if Drops(tasks[k], ok) == Current then Some(OFF) else None)
    {
      NewSenderWrites(tasks[k], live, ok);
    }
    if k :| k in tasks && tasks[k].TakeBack? && tasks[k].undo == Current {
      hide LastWrite;
      forall failing ensures Settles(f, f, tasks, live, failing) {
        assert Drops(tasks[k], k !in failing) == Current;
      }
    } else if forall k, ok :: k in tasks && Drops(tasks[k], ok) != Current ==> Dropped(f, Drops(tasks[k], ok)) == f {
      hide LastWrite;
      forall failing ensures Settles(f, f, tasks, live, failing) {
        HarmlessSettles(f, tasks, live, failing);
      }
    } else {
      var k, ok :| k in tasks && Drops(tasks[k], ok) != Current && Dropped(f, Drops(tasks[k], ok)) != f;
      LoneDropUnsettles(f, tasks, live, k, ok);
    }
  }

  lemma HarmlessSettles(f: Flags, tasks: map<nat, Task>, live: nat, failing: set<nat>)
    requires forall k, ok :: k in tasks ==>
               LastWrite(tasks[k], live, ok) == (if Drops(tasks[k], ok) == Current then Some(OFF) else None)
    requires forall k, ok :: k in tasks && Drops(tasks[k], ok) != Current ==> Dropped(f, Drops(tasks[k], ok)) == f
    ensures Settles(f, f, tasks, live, failing)
  {
    hide LastWrite, Drops;
    if k :| k in tasks && Drops(tasks[k], k !in failing) == Current {
      assert !KeepsLocal(tasks, failing) && !KeepsGate(tasks, failing);
    } else {
      assert f.local ==> KeepsLocal(tasks, failing);
      assert f.gate ==> KeepsGate(tasks, failing);
    }
  }

  lemma LoneDropUnsettles(f: Flags, tasks: map<nat, Task>, live: nat, k: nat, ok: bool)
    requires forall k, ok :: k in tasks ==>
               LastWrite(tasks[k], live, ok) == (if Drops(tasks[k], ok) == Current then Some(OFF) else None)
    requires forall k :: k in tasks && tasks[k].TakeBack? ==> tasks[k].undo != Current
    requires k in tasks && Drops(tasks[k], ok) != Current && Dropped(f, Drops(tasks[k], ok)) != f
    ensures !AllSettle(f, f, tasks, live)
  {
    var failing := if ok then {} else {k};
    forall j | j in tasks ensures Drops(tasks[j], j !in failing) != Current {
    }
    hide LastWrite, Drops;
    assert NoWrite(tasks, live, failing);
    OutcomeSplits(f, tasks, failing, k);
    assert !Settles(f, f, tasks, live, failing);
  }

  // ----- one step, exactly -----

  /** Only thread k has changed, from one task that touches nothing to another; flags and the live
      sender are as before. */
  ghost predicate Inert(s: State, s': State, k: nat)
    requires Formed(s) && Formed(s')
  {
    && s'.flags == s.flags && s'.live == s.live
    && (s.live.Some? ==> s'.senders[s.live.value] == s.senders[s.live.value])
    && s'.tasks - {k} == s.tasks - {k} && !Touches(At(s.tasks, k)) && !Touches(At(s'.tasks, k))
  }

  lemma InertKeeps(s: State, s': State, k: nat)
    requires Formed(s) && Formed(s') && Inert(s, s', k) && Consistent(s)
    ensures Consistent(s')
  {
    if s.live.Some? {
      var live := s.live.value;
      OthersSame(s.tasks, s'.tasks, k);
      forall ok ensures Drops(At(s.tasks, k), ok) == Never == Drops(At(s'.tasks, k), ok)
        ensures LastWrite(At(s.tasks, k), live, ok) == None == LastWrite(At(s'.tasks, k), live, ok)
      {
        IdleTask(At(s.tasks, k), live, ok);
        IdleTask(At(s'.tasks, k), live, ok);
      }
      forall failing ensures Settles(s'.flags, s'.senders[live], s'.tasks, live, failing) {
        OutcomeSplits(s.flags, s.tasks, failing, k);
        OutcomeSplits(s'.flags, s'.tasks, failing, k);
        hide LastWrite, Drops, Outcome;
        assert Settles(s.flags, s.senders[live], s.tasks, live, failing);
        assert k in s.tasks ==> At(s.tasks, k) == s.tasks[k];
        assert k in s'.tasks ==> At(s'.tasks, k) == s'.tasks[k];
      }
    }
  }

  /** A first section that switches the flags and starts a thread. */
  ghost predicate Starts(s: State, s': State, k: nat, v: Flags, x: Task)
    requires Formed(s) && Formed(s')
  {
    && s'.flags == v && s'.live == s.live && s'.senders == s.senders && s'.tasks == s.tasks[k := x]
    && !Touches(At(s.tasks, k))
  }

  lemma OffStarts(s: State, s': State, k: nat, after: After)
    requires Formed(s) && Formed(s') && Starts(s, s', k, OFF, Switch(s.live, OFF, after))
    requires after.ThenSend? ==> after.undo == Never
    ensures Consistent(s') <==> OffGuard(s)
  {
    if s.live.Some? {
      OffExactly(s.tasks, k, Switch(s.live, OFF, after), s.senders[s.live.value], s.live.value);
    }
  }

  lemma OnStarts(s: State, s': State, k: nat, v: Flags, x: Task)
    requires Formed(s) && Formed(s') && Starts(s, s', k, v, x)
    requires || (v == ON && x == Announce(s.live))
             || (x.Switch? && x.p == s.live && x.value == v && x.after.ThenSend? &&
                 ((v == ON && x.after.undo == LocalOnly) || (v == GATED && x.after.undo == Current)))
    ensures Consistent(s') <==> OnGuard(s)
  {
    if s.live.Some? {
      OnExactly(v, s.tasks, k, x, s.senders[s.live.value], s.live.value);
    }
  }

  lemma OpenStarts(s: State, s': State, k: nat)
    requires Formed(s) && Formed(s') && Starts(s, s', k, ON, Switch(s.live, ON, Done))
    ensures Consistent(s') <==> OpenGuard(s)
  {
    if s.live.Some? {
      OpenExactly(s.tasks, k, Switch(s.live, ON, Done), s.senders[s.live.value], s.live.value);
    }
  }

  lemma ToggleExactly(s: State, k: nat, enabled: bool, next: Option<nat>)
    requires Formed(s) && k < s.nextTask && !Touches(At(s.tasks, k)) && Consistent(s)
    ensures Formed(BeginToggle(s, k, enabled, next))
    ensures Consistent(BeginToggle(s, k, enabled, next)) <==> ToggleGuard(s, enabled)
  {
    ToggleIsFormed(s, k, enabled, next);
    var s' := BeginToggle(s, k, enabled, next);
    if s.Parks() {
      assert s'.tasks - {k} == s.tasks - {k};
      InertKeeps(s, s', k);
    } else if enabled {
      hide Consistent, OnGuard, OffGuard;
      OnStarts(s, s', k, ON, Switch(s.live, ON, ThenSend(VideoNegotiation.CameraToggle(true), LocalOnly, next)));
    } else {
      hide Consistent, OnGuard, OffGuard;
      OffStarts(s, s', k, ThenSend(VideoNegotiation.CameraToggle(false), Never, next));
    }
  }

  lemma TransitionExactly(s: State, k: nat, t: VideoNegotiation.Transition)
    requires Formed(s) && k < s.nextTask && k !in s.tasks && Consistent(s)
    ensures Formed(BeginTransition(s, k, t))
    ensures Consistent(BeginTransition(s, k, t)) <==>
            (t.RequestUpgrade? ==> OnGuard(s)) && (t.StopVideo? ==> OffGuard(s))
  {
    TransitionIsFormed(s, k, t);
    var s' := BeginTransition(s, k, t);
    match t
    case RequestUpgrade =>
      hide Consistent, OnGuard, OffGuard;
      OnStarts(s, s', k, GATED, Switch(s.live, GATED, ThenSend(VideoNegotiation.UpgradeRequest, Current, None)));
    case StopVideo =>
      hide Consistent, OnGuard, OffGuard;
      OffStarts(s, s', k, ThenSend(VideoNegotiation.VideoStopped, Never, None));
    case AcceptUpgrade =>
      assert s'.tasks - {k} == s.tasks - {k};
      InertKeeps(s, s', k);
  }

  lemma PeerExactly(s: State, k: nat, p: VideoNegotiation.PeerState)
    requires Formed(s) && k < s.nextTask && k !in s.tasks && Consistent(s)
    ensures Formed(BeginPeer(s, k, p))
    ensures Consistent(BeginPeer(s, k, p)) <==> Guarded(s, Peer(p))
  {
    PeerIsFormed(s, k, p);
    var s' := BeginPeer(s, k, p);
    if p.PeerEnabled? && s.flags == GATED {
      hide Consistent, OnGuard, OffGuard, OpenGuard;
      OpenStarts(s, s', k);
    } else if p.PeerAccept? {
      hide Consistent, OnGuard, OffGuard, OpenGuard;
      OnStarts(s, s', k, ON, Announce(s.live));
    } else if p.PeerReject? && s.flags.gate {
      hide Consistent, OnGuard, OffGuard, OpenGuard;
      OffStarts(s, s', k, Done);
    } else {
      InertKeeps(s, s', k);
    }
  }

  lemma OrientExactly(s: State, k: nat, o: nat)
    requires Formed(s) && k < s.nextTask && !Touches(At(s.tasks, k)) && Consistent(s)
    ensures Formed(BeginOrient(s, k, o)) && Consistent(BeginOrient(s, k, o))
  {
    BeginIsFormed(s, k, false, None, VideoNegotiation.StopVideo, VideoNegotiation.PeerOff, o);
    OrientIsInert(s, k, o);
    hide BeginOrient, Consistent;
    InertKeeps(s, BeginOrient(s, k, o), k);
  }

  /** Only thread k has changed, to a task that touches nothing. */
  ghost predicate OnlyThread(s: State, s': State, k: nat) {
    && s'.flags == s.flags && s'.live == s.live && s'.senders == s.senders
    && s'.tasks - {k} == s.tasks - {k} && !Touches(At(s'.tasks, k))
  }

  lemma OrientIsInert(s: State, k: nat, o: nat)
    ensures OnlyThread(s, BeginOrient(s, k, o), k)
  {
    ThreadMoves(s, s, k, None, OrientSend(o));
    ThreadMoves(s, s.(parkedOrientation := Some(o)), k, None, OrientSend(o));
    hide State.Goes, State.Then, At;
    GoesAndThen(s, k, None, OrientSend(o));
    GoesAndThen(s.(parkedOrientation := Some(o)), k, None, OrientSend(o));
  }

  lemma GoesAndThen(s: State, k: nat, next: Option<nat>, t: Task)
    ensures s.Goes(k, t).flags == s.flags == s.Then(k, next).flags
    ensures s.Goes(k, t).senders == s.senders == s.Then(k, next).senders
  {
  }

  /** The threads that neither work nor toggle. */
  lemma RestExactly(s: State, k: nat, ok: bool)
    requires Formed(s) && k in s.tasks && !Touches(s.tasks[k]) && !s.tasks[k].ToggleTurn? && Consistent(s)
    ensures Formed(Continue(s, k, s.tasks[k], ok)) && Consistent(Continue(s, k, s.tasks[k], ok))
  {
    var t := s.tasks[k];
    RestIsFormed(s, k, t, ok);
    if t.OrientTurn? {
      OrientExactly(s, k, t.orientation);
    } else {
      RestIsInert(s, k, t, ok);
      hide Continue;
      InertKeeps(s, Continue(s, k, t, ok), k);
    }
  }

  lemma RestIsInert(s: State, k: nat, t: Task, ok: bool)
    requires t.Reply? || t.ReplyUndo? || t.OrientSend? || t.AcceptSend? || t.AcceptRelease?
    ensures OnlyThread(s, Continue(s, k, t, ok), k)
  {
    if t.Reply? || t.ReplyUndo? {
      ReplyIsInert(s, k, t, ok);
    } else if t.AcceptRelease? {
      ReleaseIsInert(s, k, ok);
    } else {
      SendIsInert(s, k, t, ok);
    }
  }

  lemma ReplyIsInert(s: State, k: nat, t: Task, ok: bool)
    requires t.Reply? || t.ReplyUndo?
    ensures OnlyThread(s, Continue(s, k, t, ok), k)
  {
    if t.ReplyUndo? {
      ThreadIsInert(s, s.(peerUpgrade := true), k, None, ReplyUndo);
    } else {
      var stanza := if t.stopFirst then VideoNegotiation.VideoStopped else VideoNegotiation.UpgradeAccept;
      ThreadIsInert(s, s.(wire := s.wire + [stanza]), k, None, Reply(false));
      ThreadIsInert(s, s, k, None, ReplyUndo);
    }
    hide State.Goes, State.Then, OnlyThread;
  }

  lemma SendIsInert(s: State, k: nat, t: Task, ok: bool)
    requires t.OrientSend? || t.AcceptSend?
    ensures OnlyThread(s, Continue(s, k, t, ok), k)
  {
    var stanza :=
      if t.OrientSend? then VideoNegotiation.CameraOrientation(t.orientation) else VideoNegotiation.CallAccept(t.video);
    ThreadIsInert(s, s.(wire := s.wire + [stanza]), k, None, AcceptRelease);
    ThreadIsInert(s, s, k, None, ReplyUndo);
    hide State.Goes, State.Then, OnlyThread;
  }

  lemma ReleaseIsInert(s: State, k: nat, ok: bool)
    ensures OnlyThread(s, Continue(s, k, AcceptRelease, ok), k)
  {
    var s' := s.(acceptSent := true, parkedEnable := None, parkedOrientation := None);
    var turn := if s.parkedEnable.Some? then ToggleTurn(s.parkedEnable.value, s.parkedOrientation) else ReplyUndo;
    ThreadIsInert(s, s', k, s.parkedOrientation, turn);
    hide State.Goes, State.Then, OnlyThread;
  }

  lemma ThreadIsInert(s: State, s': State, k: nat, next: Option<nat>, t: Task)
    requires s'.flags == s.flags && s'.live == s.live && s'.senders == s.senders && s'.tasks == s.tasks && !Touches(t)
    ensures OnlyThread(s, s'.Goes(k, t), k) && OnlyThread(s, s'.Then(k, next), k)
  {
    ThreadMoves(s, s', k, next, t);
    GoesAndThen(s', k, next, t);
    hide State.Goes, State.Then, At;
  }

  lemma PublicationIsExact(s: State)
    requires Formed(s)
    ensures Formed(Step(s, Publish)) && (Consistent(Step(s, Publish)) <==> Guarded(s, Publish))
  {
    MediaIsFormed(s);
    PublishExactly(s.flags, s.tasks, s.nextSender);
  }

  /** From a consistent state, a step leads to a consistent one exactly when its guard holds. */
  lemma StepExactly(s: State, a: Action)
    requires Formed(s) && Consistent(s)
    ensures Formed(Step(s, a)) && (Consistent(Step(s, a)) <==> Guarded(s, a))
  {
    hide Formed, Consistent, Step, Guarded;
    match a
    case Resume(k, ok) => ResumeStep(s, k, ok);
    case Publish => PublicationIsExact(s);
    case Toggle(_) | Transit(_) | Peer(_) | Orient(_) => BeginStep(s, a);
    case Unpublish | Answer | Accept(_) | JoinGroup => OtherStep(s, a);
  }

  lemma BeginStep(s: State, a: Action)
    requires Formed(s) && Consistent(s) && (a.Toggle? || a.Transit? || a.Peer? || a.Orient?)
    ensures Formed(Step(s, a)) && (Consistent(Step(s, a)) <==> Guarded(s, a))
  {
    hide Formed, Consistent, Guarded, Step, Begun;
    var s' := s.(nextTask := s.nextTask + 1);
    NewThread(s, s');
    SameGuards(s, s', a);
    BegunIsStep(s, a);
    BegunExactly(s', s.nextTask, a);
  }

  lemma NewThread(s: State, s': State)
    requires Formed(s) && Consistent(s) && s' == s.(nextTask := s.nextTask + 1)
    ensures Formed(s') && Consistent(s') && s.nextTask !in s.tasks
  {
  }

  lemma BegunIsStep(s: State, a: Action)
    requires a.Toggle? || a.Transit? || a.Peer? || a.Orient?
    ensures Begun(s.(nextTask := s.nextTask + 1), s.nextTask, a) == Step(s, a)
  {
    hide BeginToggle, BeginTransition, BeginPeer, BeginOrient;
  }

  /** The first section of an operation in thread k. */
  function Begun(s: State, k: nat, a: Action): State
    requires a.Toggle? || a.Transit? || a.Peer? || a.Orient?
  {
    match a
    case Toggle(enabled) => BeginToggle(s, k, enabled, None)
    case Transit(t) => BeginTransition(s, k, t)
    case Peer(p) => BeginPeer(s, k, p)
    case Orient(o) => if o > 3 then s.(nextTask := k) else BeginOrient(s, k, o)
  }

  lemma BegunExactly(s: State, k: nat, a: Action)
    requires Formed(s) && Consistent(s) && k !in s.tasks && k + 1 == s.nextTask
    requires a.Toggle? || a.Transit? || a.Peer? || a.Orient?
    ensures Formed(Begun(s, k, a)) && (Consistent(Begun(s, k, a)) <==> Guarded(s, a))
  {
    assert Formed(s.(nextTask := k)) && Consistent(s.(nextTask := k)) by {
      assert forall j :: j in s.tasks ==> j < s.nextTask && j != k;
    }
    hide Formed, Consistent, BeginToggle, BeginTransition, BeginPeer, BeginOrient;
    hide ToggleGuard, OnGuard, OffGuard, OpenGuard;
    match a
    case Toggle(enabled) => ToggleExactly(s, k, enabled, None);
    case Transit(t) => TransitionExactly(s, k, t);
    case Peer(p) => PeerExactly(s, k, p);
    case Orient(o) => OrientExactly(s, k, o);
  }

  lemma SameGuards(s: State, s': State, a: Action)
    requires s' == s.(nextTask := s.nextTask + 1)
    ensures Guarded(s, a) == Guarded(s', a)
  {
  }

  lemma OtherStep(s: State, a: Action)
    requires Formed(s) && Consistent(s) && (a.Unpublish? || a.Answer? || a.Accept? || a.JoinGroup?)
    ensures Formed(Step(s, a)) && (Consistent(Step(s, a)) <==> Guarded(s, a))
  {
    StepIsFormed(s, a);
    if !a.Unpublish? {
      assert Step(s, a).tasks - {s.nextTask} == s.tasks - {s.nextTask};
      InertKeeps(s, Step(s, a), s.nextTask);
    }
  }

  lemma ResumeStep(s: State, k: nat, ok: bool)
    requires Formed(s) && Consistent(s)
    ensures Formed(Step(s, Resume(k, ok)))
    ensures Consistent(Step(s, Resume(k, ok))) <==> Guarded(s, Resume(k, ok))
  {
    if k in s.tasks {
      ResumeExactly(s, k, ok);
    }
  }

  lemma ResumeExactly(s: State, k: nat, ok: bool)
    requires Formed(s) && Consistent(s) && k in s.tasks
    ensures Formed(Step(s, Resume(k, ok)))
    ensures Consistent(Step(s, Resume(k, ok))) <==> Guarded(s, Resume(k, ok))
  {
    var t := s.tasks[k];
    if Touches(t) {
      WorkKeeps(s, k, ok);
    } else if t.ToggleTurn? {
      ToggleExactly(s, k, t.enabled, t.next);
    } else {
      RestExactly(s, k, ok);
    }
    hide Consistent, Continue, ToggleGuard;
  }

  // ----- whole runs -----

  /** At every point of a run, every schedule of the work under way ends in agreement. */
  ghost predicate AlwaysAgrees(s: State, acts: seq<Action>)
    requires Formed(s)
    decreases |acts|
  {
    && AllAgree(s)
    && (acts != [] ==> Formed(Step(s, acts[0])) && AlwaysAgrees(Step(s, acts[0]), acts[1..]))
  }

  /** Every operation of a run passes its guard. */
  ghost predicate AllGuarded(s: State, acts: seq<Action>)
    requires Formed(s)
    decreases |acts|
  {
    acts == [] ||
    (Guarded(s, acts[0]) && Formed(Step(s, acts[0])) && AllGuarded(Step(s, acts[0]), acts[1..]))
  }

  lemma {:induction false} RunAgreesExactly(s: State, acts: seq<Action>)
    requires Formed(s) && Consistent(s)
    ensures AlwaysAgrees(s, acts) <==> AllGuarded(s, acts)
    decreases |acts|
  {
    AgreementExactly(s);
    if acts != [] {
      var s' := Step(s, acts[0]);
      StepExactly(s, acts[0]);
      AgreementExactly(s');
      hide Consistent, AllAgree, Step, Guarded, Formed;
      if Guarded(s, acts[0]) {
        RunAgreesExactly(s', acts[1..]);
      } else {
        assert !AllAgree(s');
      }
    }
  }

  lemma FreshIsFormed(incoming: bool, group: bool, video: bool)
    ensures Formed(Fresh(incoming, group, video)) && Consistent(Fresh(incoming, group, video))
  {
  }

  /** Over any run of a call, with toggles, transitions, peer stanzas, accepts and media coming and
      going in any interleaving: at every point, however the work under way is scheduled and
      whichever of its sends fail, it ends with the live sender matching the flags, exactly when
      every operation has passed its guard. */
  lemma FlagsAgreeExactly(incoming: bool, group: bool, video: bool, acts: seq<Action>)
    ensures Formed(Fresh(incoming, group, video))
    ensures AlwaysAgrees(Fresh(incoming, group, video), acts) <==> AllGuarded(Fresh(incoming, group, video), acts)
  {
    FreshIsFormed(incoming, group, video);
    RunAgreesExactly(Fresh(incoming, group, video), acts);
  }

  /** An operation that begins with no work under way passes its guard, so operations one after the
      other keep flags and sender in agreement. */
  lemma AloneIsGuarded(s: State, a: Action)
    requires Formed(s) && Quiet(s)
    ensures Guarded(s, a)
  {
    forall k, live, ok | k in s.tasks
      ensures LastWrite(s.tasks[k], live, ok) == None && Drops(s.tasks[k], ok) == Never
    {
      IdleTask(s.tasks[k], live, ok);
    }
    hide LastWrite, Drops;
  }

  /** Two toggles at once, the first still to switch the sender: safe exactly if both switch off. */
  lemma OverlapDesyncs(s: State, first: bool, second: bool)
    requires Formed(s) && s.live.Some? && s.tasks == map[] && !s.Parks() && Consistent(s)
    ensures Formed(Step(s, Toggle(first))) && Formed(Step(Step(s, Toggle(first)), Toggle(second)))
    ensures AllAgree(Step(Step(s, Toggle(first)), Toggle(second))) <==> !first && !second
  {
    AloneIsGuarded(s, Toggle(first));
    StepExactly(s, Toggle(first));
    var s1 := Step(s, Toggle(first));
    StepExactly(s1, Toggle(second));
    AgreementExactly(Step(s1, Toggle(second)));
    var k := s.nextTask;
    assert s1.tasks.Keys == {k} && s1.live == s.live && !s1.Parks();
    assert s1.tasks[k].Switch? && s1.tasks[k].value == (if first then ON else OFF);
    assert LastWrite(s1.tasks[k], s.live.value, true) == Some(if first then ON else OFF);
    hide Consistent, AllAgree;
  }
}
