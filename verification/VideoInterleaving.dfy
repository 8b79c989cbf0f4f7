/**
  One call's video when the critical sections of its operations interleave: flags change under the
  engine lock, the sender object and the wire are touched outside it, and any number of toggles,
  transitions, peer stanzas and accepts may be under way at once.  An operation acts on the sender
  it saw under the lock, which media going down and up again may have replaced since.
 */
module VideoInterleaving {
  import opened Common
  import opened VideoNegotiation

  /** The engine's two flags, and a sender's activity and gate, which should be the same. */
  datatype Flags = Flags(local: bool, gate: bool)

  const OFF := Flags(false, false)
  const ON := Flags(true, false)
  const GATED := Flags(true, true)

  /** What a failed send takes back: nothing; the local flag, then the captured sender; both flags,
      then the sender of the moment; both flags, then the captured sender. */
  datatype Undo = Never | LocalOnly | Current | Captured

  datatype After = Done | ThenSend(stanza: Stanza, undo: Undo, next: Option<nat>)

  /** What a thread does next.  An orientation released with a toggle waits for it in `next`. */
  datatype Task =
    | ToggleTurn(enabled: bool, next: Option<nat>)
    | Switch(p: Option<nat>, value: Flags, after: After)
    | Send(stanza: Stanza, p: Option<nat>, undo: Undo, next: Option<nat>)
    | TakeBack(p: Option<nat>, undo: Undo, next: Option<nat>)
    | Close(p: Option<nat>, next: Option<nat>)
    | Announce(p: Option<nat>)
    | Reply(stopFirst: bool)
    | ReplyUndo
    | OrientTurn(orientation: nat)
    | OrientSend(orientation: nat)
    | AcceptSend(video: bool)
    | AcceptRelease

  datatype State = State(
    incoming: bool,
    group: bool,
    flags: Flags,
    peerUpgrade: bool,
    acceptPending: bool,
    acceptSent: bool,
    parkedEnable: Option<bool>,
    parkedOrientation: Option<nat>,
    senders: map<nat, Flags>,
    live: Option<nat>,
    nextSender: nat,
    wire: seq<Stanza>,
    tasks: map<nat, Task>,
    nextTask: nat)
  {
    predicate Parks() {
      !group && incoming && !acceptSent
    }

    function Goes(k: nat, t: Task): State {
      this.(tasks := tasks[k := t])
    }

    /** The thread ends, or turns to the orientation waiting for it. */
    function Then(k: nat, next: Option<nat>): State {
      if next.Some? then Goes(k, OrientTurn(next.value)) else this.(tasks := tasks - {k})
    }

    /** A sender object, if there is one, is switched. */
    function Switched(p: Option<nat>, value: Flags): State {
      if p.Some? then this.(senders := senders[p.value := value]) else this
    }
  }

  datatype Action =
    | Toggle(enabled: bool)
    | Transit(t: Transition)
    | Peer(state: PeerState)
    | Publish
    | Unpublish
    | Orient(orientation: nat)
    | Answer
    | Accept(video: bool)
    | JoinGroup
    | Resume(k: nat, ok: bool)

  // The first sections, under the lock; k is the thread.

  function BeginToggle(s: State, k: nat, enabled: bool, next: Option<nat>): State {
    if s.Parks() then s.(parkedEnable := Some(enabled)).Then(k, next)
    else
      var value := if enabled then ON else OFF;
      s.(flags := value)
       .Goes(k, Switch(s.live, value, ThenSend(CameraToggle(enabled), if enabled then LocalOnly else Never, next)))
  }

  function BeginTransition(s: State, k: nat, t: Transition): State {
    match t
    case RequestUpgrade =>
      s.(flags := GATED).Goes(k, Switch(s.live, GATED, ThenSend(UpgradeRequest, Current, None)))
    case StopVideo =>
      s.(flags := OFF).Goes(k, Switch(s.live, OFF, ThenSend(VideoStopped, Never, None)))
    case AcceptUpgrade =>
      if s.peerUpgrade then s.(peerUpgrade := false).Goes(k, Reply(!s.flags.local)) else s
  }

  function BeginPeer(s: State, k: nat, p: PeerState): State {
    match p
    case PeerUpgradeRequest => s.(peerUpgrade := true)
    case PeerEnabled => if s.flags == GATED then s.(flags := ON).Goes(k, Switch(s.live, ON, Done)) else s
    case PeerAccept => s.(flags := ON).Goes(k, Announce(s.live))
    case PeerReject =>
      var s' := s.(peerUpgrade := false);
      if s.flags.gate then s'.(flags := OFF).Goes(k, Switch(s.live, OFF, Done)) else s'
    case _ => s
  }

  function BeginOrient(s: State, k: nat, o: nat): State {
    if s.Parks() then s.(parkedOrientation := Some(o)).Then(k, None)
    else if s.flags.local then s.Goes(k, OrientSend(o))
    else s.Then(k, None)
  }

  function Step(s: State, a: Action): State {
    var k, s' := s.nextTask, s.(nextTask := s.nextTask + 1);
    match a
    case Toggle(enabled) => BeginToggle(s', k, enabled, None)
    case Transit(t) => BeginTransition(s', k, t)
    case Peer(p) => BeginPeer(s', k, p)
    case Publish =>
      s.(senders := s.senders[s.nextSender := s.flags], live := Some(s.nextSender), nextSender := s.nextSender + 1)
    case Unpublish => s.(live := None)
    case Orient(o) => if o > 3 then s else BeginOrient(s', k, o)
    case Answer => s.(acceptPending := true)
    case Accept(video) => if s.acceptPending then s'.(acceptPending := false).Goes(k, AcceptSend(video)) else s
    case JoinGroup => s.(group := true)
    case Resume(j, ok) => if j in s.tasks then Continue(s, j, s.tasks[j], ok) else s
  }

  function Continue(s: State, k: nat, t: Task, ok: bool): State {
    match t
    case ToggleTurn(enabled, next) => BeginToggle(s, k, enabled, next)
    case Switch(p, value, after) =>
      var s' := s.Switched(p, value);
      if after.ThenSend? then s'.Goes(k, Send(after.stanza, p, after.undo, after.next)) else s'.Then(k, None)
    case Send(stanza, p, undo, next) =>
      if ok then s.(wire := s.wire + [stanza]).Then(k, next)
      else if undo.Never? then s.Then(k, next)
      else s.Goes(k, TakeBack(p, undo, next))
    case TakeBack(p, undo, next) =>
      s.(flags := Dropped(s.flags, undo)).Goes(k, Close(if undo.Current? then s.live else p, next))
    case Close(p, next) => s.Switched(p, OFF).Then(k, next)
    case Announce(p) =>
      if ok then s.(wire := s.wire + [VideoAnnounced]).Goes(k, Switch(p, ON, Done))
      else s.Goes(k, TakeBack(p, Captured, None))
    case Reply(stopFirst) =>
      if !ok then s.Goes(k, ReplyUndo)
      else if stopFirst then s.(wire := s.wire + [VideoStopped]).Goes(k, Reply(false))
      else s.(wire := s.wire + [UpgradeAccept]).Then(k, None)
    case ReplyUndo => s.(peerUpgrade := true).Then(k, None)
    case OrientTurn(o) => BeginOrient(s, k, o)
    case OrientSend(o) => (if ok then s.(wire := s.wire + [CameraOrientation(o)]) else s).Then(k, None)
    case AcceptSend(video) =>
      if ok then s.(wire := s.wire + [CallAccept(video)]).Goes(k, AcceptRelease) else s.Then(k, None)
    case AcceptRelease =>
      var s' := s.(acceptSent := true, parkedEnable := None, parkedOrientation := None);
      if s.parkedEnable.Some? then s'.Goes(k, ToggleTurn(s.parkedEnable.value, s.parkedOrientation))
      else s'.Then(k, s.parkedOrientation)
  }

  function Dropped(f: Flags, undo: Undo): Flags {
    match undo
    case Never => f
    case LocalOnly => f.(local := false)
    case _ => OFF
  }

  function Run(s: State, acts: seq<Action>): State
    decreases |acts|
  {
    if acts == [] then s else Run(Step(s, acts[0]), acts[1..])
  }

  /** A call whose media is not up yet. */
  function Fresh(incoming: bool, group: bool, video: bool): State {
    State(incoming, group, Flags(video, false), false, false, false, None, None, map[], None, 0, [], map[], 0)
  }

  // ----- the accept comes first, in every interleaving -----

  ghost predicate Accepted(wire: seq<Stanza>) {
    exists i :: 0 <= i < |wire| && wire[i].CallAccept?
  }

  /** A camera stanza past the parking check. */
  predicate HoldsCamera(t: Task) {
    || (t.Switch? && t.after.ThenSend? && IsCamera(t.after.stanza))
    || (t.Send? && IsCamera(t.stanza))
    || t.OrientSend?
  }

  /** A camera stanza under way, or a release of what was parked, comes after the accept. */
  ghost predicate Cleared(s: State, t: Task) {
    && (HoldsCamera(t) && s.incoming && !s.group ==> Accepted(s.wire))
    && (t.AcceptRelease? ==> Accepted(s.wire))
  }

  ghost predicate Tasked(s: State) {
    forall k :: k in s.tasks ==> Cleared(s, s.tasks[k])
  }

  ghost predicate Inv(s: State) {
    && AcceptLeads(s.wire, s.acceptSent, s.incoming && !s.group)
    && Tasked(s)
    && (s.acceptSent ==> s.parkedEnable == None && s.parkedOrientation == None)
  }

  lemma GoesKeeps(s: State, k: nat, t: Task)
    requires Inv(s) && Cleared(s, t)
    ensures Inv(s.Goes(k, t))
  {
    hide AcceptLeads, Accepted, HoldsCamera;
  }

  lemma ThenKeeps(s: State, k: nat, next: Option<nat>)
    requires Inv(s)
    ensures Inv(s.Then(k, next))
  {
    hide AcceptLeads, Accepted;
    if next.Some? {
      GoesKeeps(s, k, OrientTurn(next.value));
    }
  }

  lemma SentIsAccepted(s: State)
    requires Inv(s)
    ensures s.acceptSent ==> Accepted(s.wire)
  {
  }

  lemma WireGrows(s: State, x: Stanza)
    requires Inv(s) && (IsCamera(x) && s.incoming && !s.group ==> Accepted(s.wire))
    ensures Inv(s.(wire := s.wire + [x])) && (x.CallAccept? ==> Accepted(s.wire + [x]))
  {
    var wire := s.wire + [x];
    assert forall i :: 0 <= i < |s.wire| ==> wire[i] == s.wire[i];
    assert wire[|s.wire|] == x;
    if Accepted(s.wire) {
      var i :| 0 <= i < |s.wire| && s.wire[i].CallAccept?;
      assert wire[i].CallAccept?;
    }
    assert AcceptLeads(wire, s.acceptSent, s.incoming && !s.group) by {
      forall i | s.incoming && !s.group && 0 <= i < |wire| && IsCamera(wire[i])
        ensures exists j :: 0 <= j < i && wire[j].CallAccept?
      {
        if i < |s.wire| {
          var j :| 0 <= j < i && s.wire[j].CallAccept?;
          assert wire[j].CallAccept?;
        } else {
          var j :| 0 <= j < |s.wire| && s.wire[j].CallAccept?;
          assert wire[j].CallAccept?;
        }
      }
    }
  }

  /** Changes that touch neither wire, accept nor tasks. */
  lemma FlagsKeep(s: State, s': State)
    requires Inv(s)
    requires s'.wire == s.wire && s'.acceptSent == s.acceptSent && s'.incoming == s.incoming && s'.tasks == s.tasks
    requires s.group ==> s'.group
    requires s.acceptSent ==> s'.parkedEnable == None && s'.parkedOrientation == None
    ensures Inv(s')
  {
    hide Accepted, HoldsCamera;
    forall k | k in s'.tasks ensures Cleared(s', s'.tasks[k]) {
      assert Cleared(s, s.tasks[k]);
    }
  }

  lemma BeginToggleKeeps(s: State, k: nat, enabled: bool, next: Option<nat>)
    requires Inv(s)
    ensures Inv(BeginToggle(s, k, enabled, next))
  {
    SentIsAccepted(s);
    if s.Parks() {
      FlagsKeep(s, s.(parkedEnable := Some(enabled)));
      ThenKeeps(s.(parkedEnable := Some(enabled)), k, next);
    } else {
      var value := if enabled then ON else OFF;
      FlagsKeep(s, s.(flags := value));
      GoesKeeps(s.(flags := value), k,
                Switch(s.live, value, ThenSend(CameraToggle(enabled), if enabled then LocalOnly else Never, next)));
    }
  }

  lemma BeginTransitionKeeps(s: State, k: nat, t: Transition)
    requires Inv(s)
    ensures Inv(BeginTransition(s, k, t))
  {
    match t
    case RequestUpgrade =>
      FlagsKeep(s, s.(flags := GATED));
      GoesKeeps(s.(flags := GATED), k, Switch(s.live, GATED, ThenSend(UpgradeRequest, Current, None)));
    case StopVideo =>
      FlagsKeep(s, s.(flags := OFF));
      GoesKeeps(s.(flags := OFF), k, Switch(s.live, OFF, ThenSend(VideoStopped, Never, None)));
    case AcceptUpgrade =>
      FlagsKeep(s, s.(peerUpgrade := false));
      GoesKeeps(s.(peerUpgrade := false), k, Reply(!s.flags.local));
  }

  lemma BeginPeerKeeps(s: State, k: nat, p: PeerState)
    requires Inv(s)
    ensures Inv(BeginPeer(s, k, p))
  {
    FlagsKeep(s, s.(peerUpgrade := true));
    FlagsKeep(s, s.(peerUpgrade := false));
    FlagsKeep(s, s.(flags := ON));
    FlagsKeep(s, s.(peerUpgrade := false, flags := OFF));
    GoesKeeps(s.(flags := ON), k, Switch(s.live, ON, Done));
    GoesKeeps(s.(flags := ON), k, Announce(s.live));
    GoesKeeps(s.(peerUpgrade := false, flags := OFF), k, Switch(s.live, OFF, Done));
    hide Inv;
  }

  lemma BeginOrientKeeps(s: State, k: nat, o: nat)
    requires Inv(s)
    ensures Inv(BeginOrient(s, k, o))
  {
    SentIsAccepted(s);
    if s.Parks() {
      FlagsKeep(s, s.(parkedOrientation := Some(o)));
      ThenKeeps(s.(parkedOrientation := Some(o)), k, None);
    } else if s.flags.local {
      GoesKeeps(s, k, OrientSend(o));
    } else {
      ThenKeeps(s, k, None);
    }
  }

  lemma SendKeeps(s: State, k: nat, t: Task, ok: bool)
    requires Inv(s) && Cleared(s, t) && t.Send?
    ensures Inv(Continue(s, k, t, ok))
  {
    WireGrows(s, t.stanza);
    hide Inv, Accepted, HoldsCamera;
    if ok {
      ThenKeeps(s.(wire := s.wire + [t.stanza]), k, t.next);
    } else if t.undo.Never? {
      ThenKeeps(s, k, t.next);
    } else {
      GoesKeeps(s, k, TakeBack(t.p, t.undo, t.next));
    }
  }

  lemma SwitchKeeps(s: State, k: nat, t: Task)
    requires Inv(s) && Cleared(s, t) && (t.Switch? || t.Close?)
    ensures Inv(Continue(s, k, t, true))
  {
    var s' := s.Switched(t.p, if t.Switch? then t.value else OFF);
    FlagsKeep(s, s');
    if t.Switch? && t.after.ThenSend? {
      GoesKeeps(s', k, Send(t.after.stanza, t.p, t.after.undo, t.after.next));
    } else {
      ThenKeeps(s', k, if t.Close? then t.next else None);
    }
  }

  lemma ReplyKeeps(s: State, k: nat, stopFirst: bool, ok: bool)
    requires Inv(s)
    ensures Inv(Continue(s, k, Reply(stopFirst), ok))
  {
    WireGrows(s, VideoStopped);
    WireGrows(s, UpgradeAccept);
    hide Inv;
    GoesKeeps(s, k, ReplyUndo);
    GoesKeeps(s.(wire := s.wire + [VideoStopped]), k, Reply(false));
    ThenKeeps(s.(wire := s.wire + [UpgradeAccept]), k, None);
  }

  lemma AcceptKeeps(s: State, k: nat, video: bool, ok: bool)
    requires Inv(s)
    ensures Inv(Continue(s, k, AcceptSend(video), ok))
    ensures Accepted(s.wire) ==> Inv(Continue(s, k, AcceptRelease, ok))
  {
    WireGrows(s, CallAccept(video));
    GoesKeeps(s.(wire := s.wire + [CallAccept(video)]), k, AcceptRelease);
    ThenKeeps(s, k, None);
    if Accepted(s.wire) {
      ReleaseKeeps(s, k);
    }
  }

  lemma ReleaseKeeps(s: State, k: nat)
    requires Inv(s) && Accepted(s.wire)
    ensures Inv(Continue(s, k, AcceptRelease, true))
  {
    var s' := s.(acceptSent := true, parkedEnable := None, parkedOrientation := None);
    assert Inv(s');
    hide Inv;
    if s.parkedEnable.Some? {
      GoesKeeps(s', k, ToggleTurn(s.parkedEnable.value, s.parkedOrientation));
    } else {
      ThenKeeps(s', k, s.parkedOrientation);
    }
  }

  lemma ContinueKeeps(s: State, k: nat, t: Task, ok: bool)
    requires Inv(s) && Cleared(s, t)
    ensures Inv(Continue(s, k, t, ok))
  {
    hide AcceptLeads, Accepted, Tasked;
    match t
    case ToggleTurn(enabled, next) => BeginToggleKeeps(s, k, enabled, next);
    case Switch(_, _, _) => SwitchKeeps(s, k, t);
    case Send(_, _, _, _) => SendKeeps(s, k, t, ok);
    case TakeBack(p, undo, next) =>
      FlagsKeep(s, s.(flags := Dropped(s.flags, undo)));
      GoesKeeps(s.(flags := Dropped(s.flags, undo)), k, Close(if undo.Current? then s.live else p, next));
    case Close(_, _) => SwitchKeeps(s, k, t);
    case Announce(p) =>
      WireGrows(s, VideoAnnounced);
      GoesKeeps(s.(wire := s.wire + [VideoAnnounced]), k, Switch(p, ON, Done));
      GoesKeeps(s, k, TakeBack(p, Captured, None));
    case Reply(stopFirst) => ReplyKeeps(s, k, stopFirst, ok);
    case ReplyUndo =>
      FlagsKeep(s, s.(peerUpgrade := true));
      ThenKeeps(s.(peerUpgrade := true), k, None);
    case OrientTurn(o) => BeginOrientKeeps(s, k, o);
    case OrientSend(o) =>
      WireGrows(s, CameraOrientation(o));
      ThenKeeps(s.(wire := s.wire + [CameraOrientation(o)]), k, None);
      ThenKeeps(s, k, None);
    case AcceptSend(video) => AcceptKeeps(s, k, video, ok);
    case AcceptRelease => AcceptKeeps(s, k, false, ok);
  }

  lemma TaskIsCleared(s: State, k: nat)
    requires Inv(s) && k in s.tasks
    ensures Cleared(s, s.tasks[k])
  {
  }

  lemma StepKeeps(s: State, a: Action)
    requires Inv(s)
    ensures Inv(Step(s, a))
  {
    hide AcceptLeads, Tasked, BeginToggle, BeginTransition, BeginPeer, BeginOrient, Continue;
    var k, s' := s.nextTask, s.(nextTask := s.nextTask + 1);
    FlagsKeep(s, s');
    match a
    case Toggle(enabled) => BeginToggleKeeps(s', k, enabled, None);
    case Transit(t) => BeginTransitionKeeps(s', k, t);
    case Peer(p) => BeginPeerKeeps(s', k, p);
    case Publish => FlagsKeep(s, Step(s, a));
    case Unpublish => FlagsKeep(s, Step(s, a));
    case Orient(o) => BeginOrientKeeps(s', k, o);
    case Answer => FlagsKeep(s, Step(s, a));
    case Accept(video) =>
      FlagsKeep(s, s'.(acceptPending := false));
      GoesKeeps(s'.(acceptPending := false), k, AcceptSend(video));
    case JoinGroup => FlagsKeep(s, Step(s, a));
    case Resume(j, ok) =>
      if j in s.tasks {
        TaskIsCleared(s, j);
        ContinueKeeps(s, j, s.tasks[j], ok);
      }
  }

  lemma {:induction false} RunKeeps(s: State, acts: seq<Action>)
    requires Inv(s)
    ensures Inv(Run(s, acts))
    decreases |acts|
  {
    if acts != [] {
      hide Inv, Step;
      StepKeeps(s, acts[0]);
      RunKeeps(Step(s, acts[0]), acts[1..]);
    }
  }

  /** In every interleaving of toggles, orientation changes, transitions, peer stanzas and accepts,
      with any sends failing: on a direct incoming call no camera stanza precedes the accept on the
      wire, and once the accept is marked as sent nothing is left parked. */
  lemma AcceptLeadsAlways(incoming: bool, group: bool, video: bool, acts: seq<Action>)
    ensures var s := Run(Fresh(incoming, group, video), acts);
            && AcceptLeads(s.wire, s.acceptSent, s.incoming && !s.group)
            && (s.acceptSent ==> s.parkedEnable == None && s.parkedOrientation == None)
  {
    RunKeeps(Fresh(incoming, group, video), acts);
  }
}
