/**
  When the engine's video flags and the live sender agree, in every interleaving.  A state is
  consistent if, whichever of the sends under way fail, what each thread would write last to the
  live sender is what the flags come to.  That is exactly when every schedule of the work under way
  ends in agreement, and for each operation there is an exact guard that keeps it so.
 */
module VideoAgreement {
  import opened Common
  import VideoNegotiation
  import opened VideoInterleaving

  // ----- what a thread may still do to the flags and the live sender -----

  /** A thread that may still switch a sender or take flags back. */
  predicate Touches(t: Task) {
    t.Switch? || t.Send? || t.TakeBack? || t.Close? || t.Announce?
  }

  function Captures(t: Task): Option<nat> {
    if Touches(t) then t.p else None
  }

  /** The last write to the live sender once the flags are being taken back. */
  function UndoWrite(p: Option<nat>, undo: Undo, live: nat): Option<Flags> {
    match undo
    case Never => None
    case Current => Some(OFF)
    case _ => if p == Some(live) then Some(OFF) else None
  }

  /** What the thread writes last to the live sender, if its send succeeds or not. */
  function LastWrite(t: Task, live: nat, ok: bool): Option<Flags> {
    match t
    case Switch(p, value, after) =>
      if after.ThenSend? && !ok && after.undo != Never then UndoWrite(p, after.undo, live)
      else if p == Some(live) then Some(value)
      else None
    case Send(_, p, undo, _) => if ok then None else UndoWrite(p, undo, live)
    case TakeBack(p, undo, _) => UndoWrite(p, undo, live)
    case Close(p, _) => if p == Some(live) then Some(OFF) else None
    case Announce(p) => if p != Some(live) then None else if ok then Some(ON) else Some(OFF)
    case _ => None
  }

  /** What of the flags the thread takes back. */
  function Drops(t: Task, ok: bool): Undo {
    match t
    case Switch(_, _, after) => if after.ThenSend? && !ok then after.undo else Never
    case Send(_, _, undo, _) => if ok then Never else undo
    case TakeBack(_, undo, _) => undo
    case Announce(_) => if ok then Never else Captured
    case _ => Never
  }

  // ----- the condition -----

  ghost predicate KeepsLocal(tasks: map<nat, Task>, failing: set<nat>) {
    forall k :: k in tasks ==> Drops(tasks[k], k !in failing) == Never
  }

  ghost predicate KeepsGate(tasks: map<nat, Task>, failing: set<nat>) {
    forall k :: k in tasks ==> Drops(tasks[k], k !in failing) == Never || Drops(tasks[k], k !in failing) == LocalOnly
  }

  /** What the flags come to when these threads' sends fail. */
  ghost function Outcome(f: Flags, tasks: map<nat, Task>, failing: set<nat>): Flags {
    Flags(f.local && KeepsLocal(tasks, failing), f.gate && KeepsGate(tasks, failing))
  }

  ghost predicate NoWrite(tasks: map<nat, Task>, live: nat, failing: set<nat>) {
    forall k :: k in tasks ==> LastWrite(tasks[k], live, k !in failing) == None
  }

  /** When these threads' sends fail, every last write to the sender is what the flags come to, and
      if there is none the sender is that already. */
  ghost predicate Settles(f: Flags, sender: Flags, tasks: map<nat, Task>, live: nat, failing: set<nat>) {
    var g := Outcome(f, tasks, failing);
    && (forall k :: k in tasks && LastWrite(tasks[k], live, k !in failing) != None ==>
          LastWrite(tasks[k], live, k !in failing) == Some(g))
    && (NoWrite(tasks, live, failing) ==> sender == g)
  }

  /** A task that refers to a sender there is, and has something to take back when it takes back. */
  predicate Sound(t: Task, senders: nat) {
    && (Captures(t).Some? ==> Captures(t).value < senders)
    && (t.TakeBack? ==> t.undo != Never)
  }

  ghost predicate Shaped(
    live: Option<nat>, senders: map<nat, Flags>, nextSender: nat, tasks: map<nat, Task>, nextTask: nat)
  {
    && (live.Some? ==> live.value in senders && live.value < nextSender)
    && (forall k :: k in tasks ==> k < nextTask && Sound(tasks[k], nextSender))
  }

  /** What every reachable state satisfies. */
  ghost predicate Formed(s: State) {
    Shaped(s.live, s.senders, s.nextSender, s.tasks, s.nextTask)
  }

  ghost predicate Consistent(s: State)
    requires Formed(s)
  {
    s.live.Some? ==> AllSettle(s.flags, s.senders[s.live.value], s.tasks, s.live.value)
  }

  ghost predicate AllSettle(f: Flags, sender: Flags, tasks: map<nat, Task>, live: nat) {
    forall failing: set<nat> :: Settles(f, sender, tasks, live, failing)
  }

  // ----- schedules of the work under way -----

  predicate Quiet(s: State) {
    forall k :: k in s.tasks ==> !Touches(s.tasks[k])
  }

  ghost predicate Agreed(s: State)
    requires Formed(s)
  {
    s.live.Some? ==> s.senders[s.live.value] == s.flags
  }

  predicate Work(s: State, a: Action) {
    a.Resume? && a.k in s.tasks && Touches(s.tasks[a.k])
  }

  /** Some schedule of the work under way ends apart. */
  ghost predicate EndsApart(s: State, acts: seq<Action>)
    requires Formed(s)
    decreases |acts|
  {
    if acts == [] then Quiet(s) && !Agreed(s)
    else
      Work(s, acts[0]) && Formed(Step(s, acts[0])) && EndsApart(Step(s, acts[0]), acts[1..])
  }

  /** Every schedule of the work under way ends in agreement. */
  ghost predicate AllAgree(s: State)
    requires Formed(s)
  {
    forall acts :: !EndsApart(s, acts)
  }

  lemma GoesIsFormed(s: State, k: nat, t: Task)
    requires Formed(s) && k < s.nextTask && Sound(t, s.nextSender)
    ensures Formed(s.Goes(k, t))
  {
  }

  lemma ThenIsFormed(s: State, k: nat, next: Option<nat>)
    requires Formed(s) && k < s.nextTask
    ensures Formed(s.Then(k, next))
  {
  }

  lemma SwitchedIsFormed(s: State, p: Option<nat>, value: Flags)
    requires Formed(s)
    ensures Formed(s.Switched(p, value))
  {
  }

  lemma LiveIsKnown(s: State)
    requires Formed(s)
    ensures s.live.Some? ==> s.live.value < s.nextSender
  {
  }

  lemma BeginIsFormed(s: State, k: nat, enabled: bool, next: Option<nat>, t: VideoNegotiation.Transition,
                      p: VideoNegotiation.PeerState, o: nat)
    requires Formed(s) && k < s.nextTask
    ensures Formed(BeginToggle(s, k, enabled, next)) && Formed(BeginTransition(s, k, t))
    ensures Formed(BeginPeer(s, k, p)) && Formed(BeginOrient(s, k, o))
  {
    ToggleIsFormed(s, k, enabled, next);
    TransitionIsFormed(s, k, t);
    PeerIsFormed(s, k, p);
    hide Formed, BeginToggle, BeginTransition, BeginPeer;
    GoesIsFormed(s, k, OrientSend(o));
    ThenIsFormed(s.(parkedOrientation := Some(o)), k, None) by {
      FormedIsShape(s, s.(parkedOrientation := Some(o)));
    }
    ThenIsFormed(s, k, None);
  }

  lemma FormedIsShape(s: State, s': State)
    requires Formed(s) && s'.live == s.live && s'.senders == s.senders && s'.nextSender == s.nextSender
    requires s'.tasks == s.tasks && s.nextTask <= s'.nextTask
    ensures Formed(s')
  {
  }

  lemma ToggleIsFormed(s: State, k: nat, enabled: bool, next: Option<nat>)
    requires Formed(s) && k < s.nextTask
    ensures Formed(BeginToggle(s, k, enabled, next))
  {
    LiveIsKnown(s);
    if s.Parks() {
      var s' := s.(parkedEnable := Some(enabled));
      FormedIsShape(s, s');
      hide Formed, State.Goes, State.Then;
      ThenIsFormed(s', k, next);
    } else {
      var value, undo := if enabled then ON else OFF, if enabled then LocalOnly else Never;
      FormedIsShape(s, s.(flags := value));
      hide Formed, State.Goes, State.Then;
      GoesIsFormed(s.(flags := value), k,
                   Switch(s.live, value, ThenSend(VideoNegotiation.CameraToggle(enabled), undo, next)));
    }
  }

  lemma TransitionIsFormed(s: State, k: nat, t: VideoNegotiation.Transition)
    requires Formed(s) && k < s.nextTask
    ensures Formed(BeginTransition(s, k, t))
  {
    LiveIsKnown(s);
    FormedIsShape(s, s.(flags := GATED));
    FormedIsShape(s, s.(flags := OFF));
    FormedIsShape(s, s.(peerUpgrade := false));
    hide Formed;
    GoesIsFormed(s.(flags := GATED), k,
                 Switch(s.live, GATED, ThenSend(VideoNegotiation.UpgradeRequest, Current, None)));
    GoesIsFormed(s.(flags := OFF), k, Switch(s.live, OFF, ThenSend(VideoNegotiation.VideoStopped, Never, None)));
    GoesIsFormed(s.(peerUpgrade := false), k, Reply(!s.flags.local));
  }

  lemma PeerIsFormed(s: State, k: nat, p: VideoNegotiation.PeerState)
    requires Formed(s) && k < s.nextTask
    ensures Formed(BeginPeer(s, k, p))
  {
    LiveIsKnown(s);
    match p
    case PeerUpgradeRequest => FormedIsShape(s, s.(peerUpgrade := true));
    case PeerEnabled =>
      FormedIsShape(s, s.(flags := ON));
      hide Formed, State.Goes;
      GoesIsFormed(s.(flags := ON), k, Switch(s.live, ON, Done));
    case PeerAccept =>
      FormedIsShape(s, s.(flags := ON));
      hide Formed, State.Goes;
      GoesIsFormed(s.(flags := ON), k, Announce(s.live));
    case PeerReject =>
      var s' := s.(peerUpgrade := false);
      FormedIsShape(s, s');
      FormedIsShape(s, s'.(flags := OFF));
      hide Formed, State.Goes;
      GoesIsFormed(s'.(flags := OFF), k, Switch(s.live, OFF, Done));
    case _ =>
  }

  lemma StepIsFormed(s: State, a: Action)
    requires Formed(s)
    ensures Formed(Step(s, a))
  {
    hide BeginToggle, BeginTransition, BeginPeer, BeginOrient, Continue;
    var k, s' := s.nextTask, s.(nextTask := s.nextTask + 1);
    FormedIsShape(s, s');
    match a
    case Publish => MediaIsFormed(s);
    case Unpublish => MediaIsFormed(s);
    case Answer => FormedIsShape(s, s.(acceptPending := true));
    case JoinGroup => FormedIsShape(s, s.(group := true));
    case Toggle(enabled) => ToggleIsFormed(s', k, enabled, None);
    case Transit(t) => TransitionIsFormed(s', k, t);
    case Peer(p) => PeerIsFormed(s', k, p);
    case Orient(o) => BeginIsFormed(s', k, false, None, VideoNegotiation.StopVideo, VideoNegotiation.PeerOff, o);
    case Accept(video) =>
      FormedIsShape(s', s'.(acceptPending := false));
      GoesIsFormed(s'.(acceptPending := false), k, AcceptSend(video));
    case Resume(j, ok) =>
      if j in s.tasks {
        ContinueIsFormed(s, j, s.tasks[j], ok);
      }
  }

  lemma MediaIsFormed(s: State)
    requires Formed(s)
    ensures Formed(Step(s, Publish)) && Formed(Step(s, Unpublish))
  {
  }

  lemma ContinueIsFormed(s: State, k: nat, t: Task, ok: bool)
    requires Formed(s) && k < s.nextTask && Sound(t, s.nextSender)
    ensures Formed(Continue(s, k, t, ok))
  {
    if Touches(t) {
      WorkIsFormed(s, k, t, ok);
    } else {
      RestIsFormed(s, k, t, ok);
    }
  }

  lemma RestIsFormed(s: State, k: nat, t: Task, ok: bool)
    requires Formed(s) && k < s.nextTask && !Touches(t)
    ensures Formed(Continue(s, k, t, ok))
  {
    hide BeginToggle, BeginOrient;
    match t
    case ToggleTurn(enabled, next) => ToggleIsFormed(s, k, enabled, next);
    case OrientTurn(o) => BeginIsFormed(s, k, false, None, VideoNegotiation.StopVideo, VideoNegotiation.PeerOff, o);
    case OrientSend(o) =>
      FormedIsShape(s, s.(wire := s.wire + [VideoNegotiation.CameraOrientation(o)]));
      hide Formed;
      ThenIsFormed(s.(wire := s.wire + [VideoNegotiation.CameraOrientation(o)]), k, None);
      ThenIsFormed(s, k, None);
    case AcceptSend(video) =>
      FormedIsShape(s, s.(wire := s.wire + [VideoNegotiation.CallAccept(video)]));
      hide Formed;
      GoesIsFormed(s.(wire := s.wire + [VideoNegotiation.CallAccept(video)]), k, AcceptRelease);
      ThenIsFormed(s, k, None);
    case AcceptRelease => ReleaseIsFormed(s, k);
    case Reply(stopFirst) => ReplyIsFormed(s, k, stopFirst, ok);
    case ReplyUndo =>
      FormedIsShape(s, s.(peerUpgrade := true));
      hide Formed;
      ThenIsFormed(s.(peerUpgrade := true), k, None);
  }

  lemma ReleaseIsFormed(s: State, k: nat)
    requires Formed(s) && k < s.nextTask
    ensures Formed(Continue(s, k, AcceptRelease, true))
  {
    var s' := s.(acceptSent := true, parkedEnable := None, parkedOrientation := None);
    FormedIsShape(s, s');
    hide Formed;
    ThenIsFormed(s', k, s.parkedOrientation);
    if s.parkedEnable.Some? {
      GoesIsFormed(s', k, ToggleTurn(s.parkedEnable.value, s.parkedOrientation));
    }
  }

  lemma ReplyIsFormed(s: State, k: nat, stopFirst: bool, ok: bool)
    requires Formed(s) && k < s.nextTask
    ensures Formed(Continue(s, k, Reply(stopFirst), ok))
  {
    FormedIsShape(s, s.(wire := s.wire + [VideoNegotiation.VideoStopped]));
    FormedIsShape(s, s.(wire := s.wire + [VideoNegotiation.UpgradeAccept]));
    hide Formed;
    GoesIsFormed(s, k, ReplyUndo);
    GoesIsFormed(s.(wire := s.wire + [VideoNegotiation.VideoStopped]), k, Reply(false));
    ThenIsFormed(s.(wire := s.wire + [VideoNegotiation.UpgradeAccept]), k, None);
  }

  lemma WorkIsFormed(s: State, k: nat, t: Task, ok: bool)
    requires Formed(s) && k < s.nextTask && Touches(t) && Sound(t, s.nextSender)
    ensures Formed(Continue(s, k, t, ok))
  {
    LiveIsKnown(s);
    match t
    case Switch(p, value, after) =>
      SwitchedIsFormed(s, p, value);
      hide Formed;
      ThenIsFormed(s.Switched(p, value), k, None);
      if after.ThenSend? {
        GoesIsFormed(s.Switched(p, value), k, Send(after.stanza, p, after.undo, after.next));
      }
    case Send(stanza, p, undo, next) =>
      FormedIsShape(s, s.(wire := s.wire + [stanza]));
      hide Formed;
      ThenIsFormed(s.(wire := s.wire + [stanza]), k, next);
      ThenIsFormed(s, k, next);
      if undo != Never {
        GoesIsFormed(s, k, TakeBack(p, undo, next));
      }
    case TakeBack(p, undo, next) =>
      FormedIsShape(s, s.(flags := Dropped(s.flags, undo)));
      hide Formed;
      GoesIsFormed(s.(flags := Dropped(s.flags, undo)), k, Close(if undo.Current? then s.live else p, next));
    case Close(p, next) =>
      SwitchedIsFormed(s, p, OFF);
      hide Formed;
      ThenIsFormed(s.Switched(p, OFF), k, next);
    case Announce(p) =>
      FormedIsShape(s, s.(wire := s.wire + [VideoNegotiation.VideoAnnounced]));
      hide Formed;
      GoesIsFormed(s.(wire := s.wire + [VideoNegotiation.VideoAnnounced]), k, Switch(p, ON, Done));
      GoesIsFormed(s, k, TakeBack(p, Captured, None));
  }

  /** A thread's task; one that has ended touches nothing. */
  function At(tasks: map<nat, Task>, k: nat): Task {
    if k in tasks then tasks[k] else ReplyUndo
  }

  /** One piece of a thread's work: what it leaves of the flags does not change, and its last write
      is still to come or has just been made. */
  ghost predicate Advanced(s: State, s': State, k: nat, ok: bool)
    requires s.live.Some? && s.live.value in s.senders
  {
    var live, t, t' := s.live.value, At(s.tasks, k), At(s'.tasks, k);
    && s'.live == s.live && live in s'.senders
    && s.tasks - {k} == s'.tasks - {k}
    && Dropped(s.flags, Drops(t, ok)) == Dropped(s'.flags, Drops(t', ok))
    && (if LastWrite(t', live, ok) == LastWrite(t, live, ok)
        then LastWrite(t, live, ok) == None ==> s'.senders[live] == s.senders[live]
        else LastWrite(t', live, ok) == None && LastWrite(t, live, ok) == Some(s'.senders[live]))
  }

  lemma WorkAdvances(s: State, k: nat, ok: bool)
    requires Formed(s) && s.live.Some? && k in s.tasks && Touches(s.tasks[k])
    ensures Advanced(s, Step(s, Resume(k, ok)), k, ok)
  {
    assert s.live.value in s.senders && Sound(s.tasks[k], s.nextSender);
    hide Formed, Sound;
    ContinueAdvances(s, k, s.tasks[k], ok);
  }

  lemma ContinueAdvances(s: State, k: nat, t: Task, ok: bool)
    requires s.live.Some? && s.live.value in s.senders && k in s.tasks && s.tasks[k] == t
    requires Touches(t) && (t.TakeBack? ==> t.undo != Never)
    ensures Advanced(s, Continue(s, k, t, ok), k, ok)
  {
    match t
    case Switch(p, value, after) => SwitchAdvances(s, k, p, value, after, ok);
    case Send(_, _, _, _) => SendAdvances(s, k, t, ok);
    case TakeBack(_, _, _) => TakeBackAdvances(s, k, t, ok);
    case Close(_, _) => CloseAdvances(s, k, t, ok);
    case Announce(p) => AnnounceAdvances(s, k, p, ok);
  }

  lemma ThreadMoves(s: State, s': State, k: nat, next: Option<nat>, t: Task)
    ensures s'.Goes(k, t).tasks == s'.tasks[k := t] && At(s'.Goes(k, t).tasks, k) == t
    ensures s'.Goes(k, t).live == s'.live == s'.Then(k, next).live
    ensures At(s'.Then(k, next).tasks, k) == (if next.Some? then OrientTurn(next.value) else ReplyUndo)
    ensures s'.tasks == s.tasks ==> s'.Goes(k, t).tasks - {k} == s.tasks - {k} == s'.Then(k, next).tasks - {k}
  {
  }

  lemma SwitchAdvances(s: State, k: nat, p: Option<nat>, value: Flags, after: After, ok: bool)
    requires s.live.Some? && s.live.value in s.senders && k in s.tasks && s.tasks[k] == Switch(p, value, after)
    ensures Advanced(s, Continue(s, k, s.tasks[k], ok), k, ok)
  {
    ThreadMoves(s, s.Switched(p, value), k, None,
                if after.ThenSend? then Send(after.stanza, p, after.undo, after.next) else ReplyUndo);
    hide State.Goes, State.Then, At;
  }

  lemma SendAdvances(s: State, k: nat, t: Task, ok: bool)
    requires s.live.Some? && s.live.value in s.senders && k in s.tasks && s.tasks[k] == t && t.Send?
    ensures Advanced(s, Continue(s, k, t, ok), k, ok)
  {
    ThreadMoves(s, s, k, t.next, TakeBack(t.p, t.undo, t.next));
    ThreadMoves(s, s.(wire := s.wire + [t.stanza]), k, t.next, t);
    assert At(s.tasks, k) == t;
    hide State.Goes, State.Then, At;
  }

  lemma TakeBackAdvances(s: State, k: nat, t: Task, ok: bool)
    requires s.live.Some? && s.live.value in s.senders && k in s.tasks && s.tasks[k] == t
    requires t.TakeBack? && t.undo != Never
    ensures Advanced(s, Continue(s, k, t, ok), k, ok)
  {
    ThreadMoves(s, s.(flags := Dropped(s.flags, t.undo)), k, None,
                Close(if t.undo.Current? then s.live else t.p, t.next));
    assert At(s.tasks, k) == t;
    hide State.Goes, State.Then, At;
  }

  lemma CloseAdvances(s: State, k: nat, t: Task, ok: bool)
    requires s.live.Some? && s.live.value in s.senders && k in s.tasks && s.tasks[k] == t && t.Close?
    ensures Advanced(s, Continue(s, k, t, ok), k, ok)
  {
    var s', live := s.Switched(t.p, OFF), s.live.value;
    ThreadMoves(s, s', k, t.next, t);
    assert At(s.tasks, k) == t && s'.flags == s.flags && s'.live == s.live && s'.tasks == s.tasks;
    assert live in s'.senders && s'.senders[live] == if t.p == s.live then OFF else s.senders[live];
    var rest := At(s'.Then(k, t.next).tasks, k);
    IdleTask(rest, live, ok);
    assert s'.Then(k, t.next).senders == s'.senders && s'.Then(k, t.next).flags == s'.flags;
    hide State.Goes, State.Then, State.Switched, At;
  }

  lemma AnnounceAdvances(s: State, k: nat, p: Option<nat>, ok: bool)
    requires s.live.Some? && s.live.value in s.senders && k in s.tasks && s.tasks[k] == Announce(p)
    ensures Advanced(s, Continue(s, k, s.tasks[k], ok), k, ok)
  {
    ThreadMoves(s, s.(wire := s.wire + [VideoNegotiation.VideoAnnounced]), k, None, Switch(p, ON, Done));
    ThreadMoves(s, s, k, None, TakeBack(p, Captured, None));
    assert At(s.tasks, k) == Announce(p);
    hide State.Goes, State.Then, At;
  }

  lemma OthersSame(tasks: map<nat, Task>, tasks': map<nat, Task>, k: nat)
    requires tasks - {k} == tasks' - {k}
    ensures forall j :: j != k ==> (j in tasks' <==> j in tasks)
    ensures forall j :: j != k && j in tasks ==> tasks'[j] == tasks[j]
  {
    forall j | j != k ensures j in tasks' <==> j in tasks {
      assert j in tasks <==> j in tasks - {k};
      assert j in tasks' <==> j in tasks' - {k};
    }
    forall j | j != k && j in tasks ensures tasks'[j] == tasks[j] {
      assert tasks[j] == (tasks - {k})[j] && tasks'[j] == (tasks' - {k})[j];
    }
  }

  /** The outcome, one thread set apart. */
  lemma OutcomeSplits(f: Flags, tasks: map<nat, Task>, failing: set<nat>, k: nat)
    ensures Outcome(f, tasks, failing) == Outcome(Dropped(f, Drops(At(tasks, k), k !in failing)), tasks - {k}, failing)
  {
    var rest := tasks - {k};
    var u := Drops(At(tasks, k), k !in failing);
    assert KeepsLocal(tasks, failing) <==> KeepsLocal(rest, failing) && u == Never;
    assert KeepsGate(tasks, failing) <==> KeepsGate(rest, failing) && (u == Never || u == LocalOnly);
  }

  lemma AdvancedOutcome(s: State, s': State, k: nat, failing: set<nat>)
    requires s.live.Some? && s.live.value in s.senders && Advanced(s, s', k, k !in failing)
    ensures Outcome(s'.flags, s'.tasks, failing) == Outcome(s.flags, s.tasks, failing)
  {
    OutcomeSplits(s.flags, s.tasks, failing, k);
    OutcomeSplits(s'.flags, s'.tasks, failing, k);
  }

  lemma AdvancedSettles(s: State, s': State, k: nat, failing: set<nat>)
    requires s.live.Some? && s.live.value in s.senders && Advanced(s, s', k, k !in failing)
    requires Settles(s.flags, s.senders[s.live.value], s.tasks, s.live.value, failing)
    ensures Settles(s'.flags, s'.senders[s.live.value], s'.tasks, s.live.value, failing)
  {
    AdvancedOutcome(s, s', k, failing);
    OthersSame(s.tasks, s'.tasks, k);
    hide Outcome, LastWrite, Drops;
    var live, g := s.live.value, Outcome(s.flags, s.tasks, failing);
    assert At(s'.tasks, k) == ReplyUndo || k in s'.tasks;
    QuietWrites(live, k !in failing);
  }

  lemma QuietWrites(live: nat, ok: bool)
    ensures LastWrite(ReplyUndo, live, ok) == None
  {
  }

  // ----- consistency is kept by all work, -----

  lemma IdleTask(t: Task, live: nat, ok: bool)
    requires !Touches(t)
    ensures LastWrite(t, live, ok) == None && Drops(t, ok) == Never
  {
  }

  /** A thread past its send does not depend on it. */
  lemma VerdictIrrelevant(
    f: Flags, sender: Flags, tasks: map<nat, Task>, live: nat, k: nat, one: set<nat>, two: set<nat>)
    requires forall j :: j != k ==> (j in one <==> j in two)
    requires var t := At(tasks, k);
             LastWrite(t, live, true) == LastWrite(t, live, false) && Drops(t, true) == Drops(t, false)
    requires Settles(f, sender, tasks, live, one)
    ensures Settles(f, sender, tasks, live, two)
  {
    assert forall j :: j in tasks ==> Drops(tasks[j], j !in one) == Drops(tasks[j], j !in two);
    assert forall j :: j in tasks ==> LastWrite(tasks[j], live, j !in one) == LastWrite(tasks[j], live, j !in two);
    hide Drops, LastWrite;
    assert KeepsLocal(tasks, one) == KeepsLocal(tasks, two) && KeepsGate(tasks, one) == KeepsGate(tasks, two);
  }

  function Resting(next: Option<nat>): Task {
    if next.Some? then OrientTurn(next.value) else ReplyUndo
  }

  /** What a thread does after a piece of its work. */
  function Following(t: Task, live: Option<nat>, ok: bool): Task {
    match t
    case Switch(p, _, after) => if after.ThenSend? then Send(after.stanza, p, after.undo, after.next) else ReplyUndo
    case Send(_, p, undo, next) => if ok || undo.Never? then Resting(next) else TakeBack(p, undo, next)
    case TakeBack(p, undo, next) => Close(if undo.Current? then live else p, next)
    case Close(_, next) => Resting(next)
    case Announce(p) => if ok then Switch(p, ON, Done) else TakeBack(p, Captured, None)
    case _ => t
  }

  lemma Follows(s: State, k: nat, ok: bool)
    requires k in s.tasks && Touches(s.tasks[k])
    ensures Step(s, Resume(k, ok)).live == s.live
    ensures At(Step(s, Resume(k, ok)).tasks, k) == Following(s.tasks[k], s.live, ok)
  {
    var t := s.tasks[k];
    if t.Switch? || t.Close? {
      SwitchFollows(s, k, t, ok);
    } else if t.Send? {
      SendFollows(s, k, t, ok);
    } else {
      UndoFollows(s, k, t, ok);
    }
    hide Continue, Following, At;
  }

  lemma SwitchFollows(s: State, k: nat, t: Task, ok: bool)
    requires t.Switch? || t.Close?
    ensures Continue(s, k, t, ok).live == s.live && At(Continue(s, k, t, ok).tasks, k) == Following(t, s.live, ok)
  {
    var s' := s.Switched(t.p, if t.Switch? then t.value else OFF);
    assert s'.live == s.live;
    ThreadMoves(s, s', k, if t.Close? then t.next else None, Following(t, s.live, ok));
    hide State.Goes, State.Then, State.Switched, At;
  }

  lemma SendFollows(s: State, k: nat, t: Task, ok: bool)
    requires t.Send?
    ensures Continue(s, k, t, ok).live == s.live && At(Continue(s, k, t, ok).tasks, k) == Following(t, s.live, ok)
  {
    ThreadMoves(s, if ok then s.(wire := s.wire + [t.stanza]) else s, k, t.next, Following(t, s.live, ok));
    hide State.Goes, State.Then, At;
  }

  lemma UndoFollows(s: State, k: nat, t: Task, ok: bool)
    requires t.TakeBack? || t.Announce?
    ensures Continue(s, k, t, ok).live == s.live && At(Continue(s, k, t, ok).tasks, k) == Following(t, s.live, ok)
  {
    if t.TakeBack? {
      ThreadMoves(s, s.(flags := Dropped(s.flags, t.undo)), k, None, Following(t, s.live, ok));
    } else if ok {
      ThreadMoves(s, s.(wire := s.wire + [VideoNegotiation.VideoAnnounced]), k, None, Following(t, s.live, ok));
    } else {
      ThreadMoves(s, s, k, None, Following(t, s.live, ok));
    }
    hide State.Goes, State.Then, At, Dropped;
  }

  lemma SentIsSettled(s: State, k: nat, ok: bool, live: nat)
    requires k in s.tasks && (s.tasks[k].Send? || s.tasks[k].Announce?)
    ensures var t := At(Step(s, Resume(k, ok)).tasks, k);
            LastWrite(t, live, true) == LastWrite(t, live, false) && Drops(t, true) == Drops(t, false)
  {
    Follows(s, k, ok);
    hide Step, At;
  }

  lemma UnsentIgnoresVerdict(s: State, k: nat)
    requires k in s.tasks && Touches(s.tasks[k]) && !s.tasks[k].Send? && !s.tasks[k].Announce?
    ensures Step(s, Resume(k, true)) == Step(s, Resume(k, false))
  {
  }

  lemma WorkKeeps(s: State, k: nat, ok: bool)
    requires Formed(s) && Consistent(s) && k in s.tasks && Touches(s.tasks[k])
    ensures Formed(Step(s, Resume(k, ok))) && Consistent(Step(s, Resume(k, ok)))
  {
    var s' := Step(s, Resume(k, ok));
    StepIsFormed(s, Resume(k, ok));
    Follows(s, k, ok);
    hide Step;
    if s.live.Some? {
      var live := s.live.value;
      forall failing: set<nat>
        ensures Settles(s'.flags, s'.senders[live], s'.tasks, live, failing)
      {
        WorkSettles(s, k, ok, failing);
      }
    }
  }

  lemma WorkSettles(s: State, k: nat, ok: bool, failing: set<nat>)
    requires Formed(s) && Consistent(s) && k in s.tasks && Touches(s.tasks[k]) && s.live.Some?
    ensures Formed(Step(s, Resume(k, ok)))
    ensures var s', live := Step(s, Resume(k, ok)), s.live.value;
            live in s'.senders && Settles(s'.flags, s'.senders[live], s'.tasks, live, failing)
  {
    var live := s.live.value;
    assert live in s.senders && forall f :: Settles(s.flags, s.senders[live], s.tasks, live, f);
    StepIsFormed(s, Resume(k, ok));
    var t := s.tasks[k];
    var ok' := if t.Send? || t.Announce? then ok else k !in failing;
    var agreeing := if ok' then failing - {k} else failing + {k};
    if t.Send? || t.Announce? {
      SentIsSettled(s, k, ok, live);
    } else {
      UnsentIgnoresVerdict(s, k);
      assert agreeing == failing;
    }
    WorkAdvances(s, k, ok');
    var s' := Step(s, Resume(k, ok));
    assert s' == Step(s, Resume(k, ok'));
    hide Settles, Step, LastWrite, Drops, Advanced, At;
    AdvancedSettles(s, s', k, agreeing) by {
      assert Advanced(s, s', k, k !in agreeing);
    }
    if t.Send? || t.Announce? {
      VerdictIrrelevant(s'.flags, s'.senders[live], s'.tasks, live, k, agreeing, failing);
    }
  }

  /** All work done, consistency is agreement. */
  lemma QuietIsAgreed(s: State)
    requires Formed(s) && Quiet(s)
    ensures Consistent(s) <==> Agreed(s)
  {
    if s.live.Some? {
      var live := s.live.value;
      forall k, ok | k in s.tasks ensures LastWrite(s.tasks[k], live, ok) == None && Drops(s.tasks[k], ok) == Never {
        IdleTask(s.tasks[k], live, ok);
      }
      hide LastWrite, Drops;
      assert forall failing :: Outcome(s.flags, s.tasks, failing) == s.flags && NoWrite(s.tasks, live, failing);
      assert Settles(s.flags, s.senders[live], s.tasks, live, {}) <==> s.senders[live] == s.flags;
    }
  }

  lemma {:induction false} ConsistentAllAgree(s: State, acts: seq<Action>)
    requires Formed(s) && Consistent(s)
    ensures !EndsApart(s, acts)
    decreases |acts|
  {
    if acts == [] {
      if Quiet(s) {
        QuietIsAgreed(s);
      }
    } else if Work(s, acts[0]) {
      WorkKeeps(s, acts[0].k, acts[0].ok);
      hide Consistent, Step;
      ConsistentAllAgree(Step(s, acts[0]), acts[1..]);
    }
  }

  // ----- and without it some schedule ends apart -----

  /** With these sends failing, thread w's last write is not what the flags come to; or nobody
      writes, and the sender is not that. */
  ghost predicate Mismatch(s: State, failing: set<nat>, w: Option<nat>)
    requires Formed(s)
  {
    s.live.Some? &&
    var live, g := s.live.value, Outcome(s.flags, s.tasks, failing);
    match w
    case Some(k) => LastWrite(At(s.tasks, k), live, k !in failing) != None
                    && LastWrite(At(s.tasks, k), live, k !in failing) != Some(g)
    case None => NoWrite(s.tasks, live, failing) && s.senders[live] != g
  }

  ghost predicate CanEndApart(s: State)
    requires Formed(s)
  {
    exists acts :: EndsApart(s, acts)
  }

  lemma WorkCanEndApart(s: State, a: Action)
    requires Formed(s) && Work(s, a) && Formed(Step(s, a)) && CanEndApart(Step(s, a))
    ensures CanEndApart(s)
  {
    hide Formed, Step;
    var acts :| EndsApart(Step(s, a), acts);
    assert ([a] + acts)[1..] == acts;
    assert EndsApart(s, [a] + acts);
  }

  ghost function Touching(tasks: map<nat, Task>): set<nat> {
    set k | k in tasks && Touches(tasks[k])
  }

  function Stage(t: Task): nat {
    match t
    case Announce(_) => 5
    case Switch(_, _, _) => 4
    case Send(_, _, _, _) => 3
    case TakeBack(_, _, _) => 2
    case Close(_, _) => 1
    case _ => 0
  }

  lemma StageFalls(s: State, k: nat, ok: bool)
    requires k in s.tasks && Touches(s.tasks[k])
    ensures var t' := At(Step(s, Resume(k, ok)).tasks, k);
            Stage(t') < Stage(s.tasks[k]) && (Stage(t') == 0 <==> !Touches(t'))
  {
    Follows(s, k, ok);
    hide Step, At;
  }

  /** One step of thread j keeps the mismatch; thread w itself moves only when it is the last. */
  lemma MismatchMoves(s: State, failing: set<nat>, w: Option<nat>, j: nat) returns (w': Option<nat>)
    requires Formed(s) && Mismatch(s, failing, w) && j in s.tasks && Touches(s.tasks[j])
    requires w == Some(j) ==> Touching(s.tasks) == {j}
    ensures var s' := Step(s, Resume(j, j !in failing)); Formed(s') && Mismatch(s', failing, w')
    ensures w' == w || (w == Some(j) && w' == None)
  {
    var ok := j !in failing;
    var s', live := Step(s, Resume(j, ok)), s.live.value;
    StepIsFormed(s, Resume(j, ok));
    WorkAdvances(s, j, ok);
    assert live in s.senders;
    AdvancedOutcome(s, s', j, failing);
    OthersSame(s.tasks, s'.tasks, j);
    if w == Some(j) {
      forall k | k in s.tasks && k != j ensures LastWrite(s.tasks[k], live, k !in failing) == None {
        assert k !in Touching(s.tasks);
        IdleTask(s.tasks[k], live, k !in failing);
      }
    }
    QuietWrites(live, ok);
    hide LastWrite, Outcome, Step, Formed, Touches;
    w' := w;
    if w == Some(j) && LastWrite(At(s'.tasks, j), live, ok) == None {
      w' := None;
    }
  }

  lemma {:induction false} DriveAll(s: State, failing: set<nat>, w: Option<nat>)
    requires Formed(s) && Mismatch(s, failing, w)
    ensures CanEndApart(s)
    decreases |Touching(s.tasks)|, 6
  {
    if Touching(s.tasks) == {} {
      NothingLeft(s, failing, w);
    } else if j :| j in Touching(s.tasks) && w != Some(j) {
      DriveThread(s, failing, w, j);
    } else {
      assert w.Some? && Touching(s.tasks) == {w.value};
      DriveThread(s, failing, w, w.value);
    }
  }

  lemma NothingLeft(s: State, failing: set<nat>, w: Option<nat>)
    requires Formed(s) && Mismatch(s, failing, w) && Touching(s.tasks) == {}
    ensures CanEndApart(s)
  {
    forall k | k in s.tasks ensures !Touches(s.tasks[k]) {
      assert k !in Touching(s.tasks);
    }
    var live := s.live.value;
    forall k, ok ensures LastWrite(At(s.tasks, k), live, ok) == None && Drops(At(s.tasks, k), ok) == Never {
      IdleTask(At(s.tasks, k), live, ok);
    }
    assert Outcome(s.flags, s.tasks, failing) == s.flags by {
      hide Drops;
      assert forall k :: k in s.tasks ==> At(s.tasks, k) == s.tasks[k];
    }
    assert EndsApart(s, []);
  }

  lemma {:induction false} DriveThread(s: State, failing: set<nat>, w: Option<nat>, j: nat)
    requires Formed(s) && Mismatch(s, failing, w) && j in s.tasks && Touches(s.tasks[j])
    requires w == Some(j) ==> Touching(s.tasks) == {j}
    ensures CanEndApart(s)
    decreases |Touching(s.tasks)|, Stage(s.tasks[j])
  {
    var ok := j !in failing;
    var a := Resume(j, ok);
    var s' := Step(s, a);
    var w' := MismatchMoves(s, failing, w, j);
    StageFalls(s, j, ok);
    TouchingAfter(s, j, ok);
    assert Work(s, a);
    hide Mismatch, Formed, Step, CanEndApart, Touching;
    if Touches(At(s'.tasks, j)) {
      DriveThread(s', failing, w', j);
    } else {
      DriveAll(s', failing, w');
    }
    WorkCanEndApart(s, a);
  }

  lemma TouchingAfter(s: State, j: nat, ok: bool)
    requires Formed(s) && s.live.Some? && j in s.tasks && Touches(s.tasks[j])
    ensures var s' := Step(s, Resume(j, ok));
            Touching(s'.tasks) == if Touches(At(s'.tasks, j)) then Touching(s.tasks) else Touching(s.tasks) - {j}
  {
    var s' := Step(s, Resume(j, ok));
    WorkAdvances(s, j, ok);
    OthersSame(s.tasks, s'.tasks, j);
    hide Step;
    assert j in s'.tasks ==> At(s'.tasks, j) == s'.tasks[j];
  }

  /** In every reachable state, all schedules of the work under way end with flags and sender in
      agreement exactly when the state is consistent. */
  lemma AgreementExactly(s: State)
    requires Formed(s)
    ensures AllAgree(s) <==> Consistent(s)
  {
    if Consistent(s) {
      forall acts ensures !EndsApart(s, acts) {
        ConsistentAllAgree(s, acts);
      }
    } else {
      var live := s.live.value;
      var failing :| !Settles(s.flags, s.senders[live], s.tasks, live, failing);
      var w := FindMismatch(s, failing);
      DriveAll(s, failing, w);
    }
  }

  lemma FindMismatch(s: State, failing: set<nat>) returns (w: Option<nat>)
    requires Formed(s) && s.live.Some?
    requires !Settles(s.flags, s.senders[s.live.value], s.tasks, s.live.value, failing)
    ensures Mismatch(s, failing, w)
  {
    hide Outcome, LastWrite;
    var live, g := s.live.value, Outcome(s.flags, s.tasks, failing);
    w := None;
    if k :| k in s.tasks && LastWrite(s.tasks[k], live, k !in failing) != None
            && LastWrite(s.tasks[k], live, k !in failing) != Some(g) {
      w := Some(k);
    }
  }
}
