/**
  The two models of one call's video agree: an operation of module VideoInterleaving whose critical
  sections run to its end with nothing else in between does to the flags, the sender and the wire
  what the operation does as a whole in module VideoNegotiation.
 */
module VideoRefinement {
  import opened Common
  import opened VideoNegotiation
  import I = VideoInterleaving

  /** A state with no work under way shows the same call: flags, what is parked, the live sender's
      activity and gate, and the wire. */
  predicate Match(s: I.State, v: Video) {
    && s.incoming == v.incoming && s.group == v.group && s.flags == I.Flags(v.localVideo, v.videoGate)
    && s.peerUpgrade == v.peerUpgrade && s.acceptPending == v.acceptPending && s.acceptSent == v.acceptSent
    && s.parkedEnable == v.parkedEnable && s.parkedOrientation == v.parkedOrientation && s.wire == v.wire
    && (s.live.Some? <==> v.sender.Some?)
    && (s.live.Some? ==>
          && s.live.value in s.senders
          && s.senders[s.live.value] == I.Flags(v.sender.value.active, v.sender.value.sendGated))
  }

  /** The sections of one operation, in order: the action that begins it, then the work of its
      thread.  ok says of each section that sends whether it succeeds. */
  function Sections(s: I.State, v: Video, ev: Event): seq<I.Action> {
    var k := s.nextTask;
    match ev
    case Transitioning(t, ok, ok') =>
      var last := if t.AcceptUpgrade? then ok' else ok;
      [I.Transit(t), I.Resume(k, ok), I.Resume(k, last), I.Resume(k, last), I.Resume(k, last)]
    case Toggling(enabled, ok) =>
      [I.Toggle(enabled), I.Resume(k, ok), I.Resume(k, ok), I.Resume(k, ok), I.Resume(k, ok)]
    case Orienting(o, ok) => if o < 0 then [] else [I.Orient(o), I.Resume(k, ok)]
    case PeerStanza(p, ok) => [I.Peer(p), I.Resume(k, ok), I.Resume(k, ok), I.Resume(k, ok)]
    case Answering => [I.Answer]
    case Accepting(ok, toggleOk, orientOk) =>
      [I.Accept(v.localVideo || v.remoteVideo), I.Resume(k, ok), I.Resume(k, ok)]
      + ToggleSections(v, k, toggleOk) + [I.Resume(k, orientOk), I.Resume(k, orientOk)]
    case MediaUp => [I.Publish]
    case MediaDown => [I.Unpublish]
    case JoiningGroup => [I.JoinGroup]
    case Frame(_) | KeyframeRequest | Ending => []
  }

  /** Those of the parked toggle, if there is one. */
  function ToggleSections(v: Video, k: nat, ok: bool): seq<I.Action> {
    if v.parkedEnable.None? then []
    else
      [I.Resume(k, ok), I.Resume(k, ok), I.Resume(k, ok)]
      + if v.parkedEnable.value && !ok then [I.Resume(k, ok), I.Resume(k, ok)] else []
  }

  // ----- one thread by itself -----

  function Only(s: I.State, k: nat, t: I.Task): I.State { s.(tasks := map[k := t]) }

  function Idle(s: I.State): I.State { s.(tasks := map[]) }

  lemma OnlyGoes(s: I.State, k: nat, t: I.Task, t': I.Task)
    ensures Only(s, k, t).Goes(k, t') == Only(s, k, t') && Idle(s).Goes(k, t') == Only(s, k, t')
  {
  }

  lemma OnlyThen(s: I.State, k: nat, t: I.Task, next: Option<nat>)
    ensures Only(s, k, t).Then(k, next) == Idle(s).Then(k, next)
    ensures Idle(s).Then(k, next) == if next.Some? then Only(s, k, I.OrientTurn(next.value)) else Idle(s)
  {
    assert Only(s, k, t).tasks - {k} == map[];
    assert Idle(s).tasks - {k} == map[];
  }

  lemma OnlySteps(s: I.State, k: nat, t: I.Task, ok: bool)
    ensures I.Step(Only(s, k, t), I.Resume(k, ok)) == I.Continue(Only(s, k, t), k, t, ok)
    ensures I.Step(Idle(s), I.Resume(k, ok)) == Idle(s)
  {
    hide I.Continue;
  }

  lemma {:induction false} RunAppend(s: I.State, a: seq<I.Action>, b: seq<I.Action>)
    ensures I.Run(s, a + b) == I.Run(I.Run(s, a), b)
    decreases |a|
  {
    hide I.Step;
    if a == [] {
      assert a + b == b;
    } else {
      assert (a + b)[1..] == a[1..] + b;
      RunAppend(I.Step(s, a[0]), a[1..], b);
    }
  }

  lemma RunOne(s: I.State, a: I.Action)
    ensures I.Run(s, [a]) == I.Step(s, a)
  {
    hide I.Step;
    assert [a][1..] == [];
  }

  lemma RunTwo(s: I.State, a: I.Action, b: I.Action)
    ensures I.Run(s, [a, b]) == I.Step(I.Step(s, a), b)
  {
    hide I.Step;
    RunOne(I.Step(s, a), b);
    assert [a, b][1..] == [b];
  }

  lemma RunThree(s: I.State, a: I.Action, b: I.Action, c: I.Action)
    ensures I.Run(s, [a, b, c]) == I.Step(I.Step(I.Step(s, a), b), c)
  {
    hide I.Step;
    RunTwo(I.Step(s, a), b, c);
    assert [a, b, c][1..] == [b, c];
  }

  lemma RunFive(s: I.State, a: I.Action, b: I.Action, c: I.Action, d: I.Action, e: I.Action)
    ensures I.Run(s, [a, b, c, d]) == I.Step(I.Step(I.Step(I.Step(s, a), b), c), d)
    ensures I.Run(s, [a, b, c, d, e]) == I.Step(I.Step(I.Step(I.Step(I.Step(s, a), b), c), d), e)
  {
    hide I.Step;
    RunThree(I.Step(s, a), b, c, d);
    RunTwo(I.Step(I.Step(I.Step(s, a), b), c), d, e);
    RunAppend(s, [a, b, c], [d, e]);
    RunThree(s, a, b, c);
    assert [a, b, c, d][1..] == [b, c, d];
    assert [a, b, c] + [d, e] == [a, b, c, d, e];
  }

  // ----- a thread that switches the camera and says so -----

  /** The state such a thread leaves. */
  function Camera(s: I.State, value: I.Flags, stanza: Stanza, undo: I.Undo, ok: bool): I.State {
    var s' := s.(flags := value).Switched(s.live, value);
    if ok then s'.(wire := s.wire + [stanza])
    else if undo.Never? then s'
    else s'.(flags := I.Dropped(value, undo)).Switched(s.live, I.OFF)
  }

  lemma SwitchSection(s: I.State, k: nat, p: Option<nat>, value: I.Flags, stanza: Stanza, undo: I.Undo,
                      next: Option<nat>, ok: bool)
    ensures I.Step(Only(s, k, I.Switch(p, value, I.ThenSend(stanza, undo, next))), I.Resume(k, ok)) ==
            Only(s.Switched(p, value), k, I.Send(stanza, p, undo, next))
  {
    var t := I.Switch(p, value, I.ThenSend(stanza, undo, next));
    OnlySteps(s, k, t, ok);
    OnlyGoes(s.Switched(p, value), k, t, I.Send(stanza, p, undo, next));
    assert Only(s, k, t).Switched(p, value) == Only(s.Switched(p, value), k, t);
    hide I.Step, Only;
  }

  lemma SendSection(s: I.State, k: nat, p: Option<nat>, stanza: Stanza, undo: I.Undo, next: Option<nat>, ok: bool)
    ensures I.Step(Only(s, k, I.Send(stanza, p, undo, next)), I.Resume(k, ok)) ==
            if ok then Idle(s.(wire := s.wire + [stanza])).Then(k, next)
            else if undo.Never? then Idle(s).Then(k, next)
            else Only(s, k, I.TakeBack(p, undo, next))
  {
    var t := I.Send(stanza, p, undo, next);
    var said := s.(wire := s.wire + [stanza]);
    OnlySteps(s, k, t, ok);
    OnlyThen(s, k, t, next);
    OnlyThen(said, k, t, next);
    OnlyGoes(s, k, t, I.TakeBack(p, undo, next));
    assert Only(s, k, t).(wire := s.wire + [stanza]) == Only(said, k, t);
    assert Only(s, k, t).wire == s.wire;
    hide I.Step, Only, Idle, I.State.Then, I.State.Goes;
  }

  lemma TakeBackSection(s: I.State, k: nat, p: Option<nat>, undo: I.Undo, next: Option<nat>, ok: bool)
    ensures I.Step(Only(s, k, I.TakeBack(p, undo, next)), I.Resume(k, ok)) ==
            Only(s.(flags := I.Dropped(s.flags, undo)), k, I.Close(if undo.Current? then s.live else p, next))
  {
    var t := I.TakeBack(p, undo, next);
    OnlySteps(s, k, t, ok);
    OnlyGoes(s.(flags := I.Dropped(s.flags, undo)), k, t, I.Close(if undo.Current? then s.live else p, next));
    assert Only(s, k, t).(flags := I.Dropped(s.flags, undo)) == Only(s.(flags := I.Dropped(s.flags, undo)), k, t);
    hide I.Step;
  }

  lemma CloseSection(s: I.State, k: nat, p: Option<nat>, next: Option<nat>, ok: bool)
    ensures I.Step(Only(s, k, I.Close(p, next)), I.Resume(k, ok)) == Idle(s.Switched(p, I.OFF)).Then(k, next)
  {
    var t := I.Close(p, next);
    OnlySteps(s, k, t, ok);
    OnlyThen(s.Switched(p, I.OFF), k, t, next);
    assert Only(s, k, t).Switched(p, I.OFF) == Only(s.Switched(p, I.OFF), k, t);
    hide I.Step, Only, Idle, I.State.Then;
  }

  lemma CameraThread(s: I.State, k: nat, value: I.Flags, stanza: Stanza, undo: I.Undo, next: Option<nat>, ok: bool)
    ensures var t := Only(s.(flags := value), k, I.Switch(s.live, value, I.ThenSend(stanza, undo, next)));
            var t' := I.Step(I.Step(t, I.Resume(k, ok)), I.Resume(k, ok));
            var done := Idle(Camera(s, value, stanza, undo, ok)).Then(k, next);
            if ok || undo.Never? then t' == done
            else I.Step(I.Step(t', I.Resume(k, ok)), I.Resume(k, ok)) == done
  {
    var s0 := s.(flags := value);
    var s1 := s0.Switched(s.live, value);
    SwitchSection(s0, k, s.live, value, stanza, undo, next, ok);
    SendSection(s1, k, s.live, stanza, undo, next, ok);
    TakeBackSection(s1, k, s.live, undo, next, ok);
    CloseSection(s1.(flags := I.Dropped(value, undo)), k, s.live, next, ok);
    hide I.Step, Only, Idle, I.State.Then, I.Dropped;
  }

  // ----- matching -----

  lemma SwitchOnMatches(s: I.State, v: Video, ok: bool)
    requires Match(s, v)
    ensures Match(Camera(s, I.ON, CameraToggle(true), I.LocalOnly, ok), AfterSwitch(v, true, ok))
  {
  }

  lemma SwitchOffMatches(s: I.State, v: Video, ok: bool)
    requires Match(s, v)
    ensures Match(Camera(s, I.OFF, CameraToggle(false), I.Never, ok), AfterSwitch(v, false, ok))
  {
  }

  lemma SwitchMatches(s: I.State, v: Video, enabled: bool, ok: bool)
    requires Match(s, v)
    ensures Match(Toggled(s, enabled, ok), AfterSwitch(v, enabled, ok))
  {
    SwitchOnMatches(s, v, ok);
    SwitchOffMatches(s, v, ok);
    hide Camera, AfterSwitch, Match;
  }

  /** A camera toggle's whole effect on the interleaving state. */
  function Toggled(s: I.State, enabled: bool, ok: bool): I.State {
    if enabled then Camera(s, I.ON, CameraToggle(true), I.LocalOnly, ok)
    else Camera(s, I.OFF, CameraToggle(false), I.Never, ok)
  }

  lemma RequestMatches(s: I.State, v: Video, ok: bool)
    requires Match(s, v)
    ensures Match(Camera(s, I.GATED, UpgradeRequest, I.Current, ok), AfterRequest(v, ok))
  {
  }

  lemma StopMatches(s: I.State, v: Video, ok: bool)
    requires Match(s, v)
    ensures Match(Camera(s, I.OFF, VideoStopped, I.Never, ok), v.Off().Say(VideoStopped, ok))
  {
  }

  /** A thread with no orientation waiting has ended after four sections at most. */
  lemma CameraAlone(s: I.State, k: nat, value: I.Flags, stanza: Stanza, undo: I.Undo, ok: bool)
    ensures var t := Only(s.(flags := value), k, I.Switch(s.live, value, I.ThenSend(stanza, undo, None)));
            var r := I.Resume(k, ok);
            I.Step(I.Step(I.Step(I.Step(t, r), r), r), r) == Idle(Camera(s, value, stanza, undo, ok))
  {
    CameraThread(s, k, value, stanza, undo, None, ok);
    var done := Camera(s, value, stanza, undo, ok);
    OnlyThen(done, k, I.ReplyUndo, None);
    OnlySteps(done, k, I.ReplyUndo, ok);
    hide I.Step, Only, Idle, Camera, I.State.Then;
  }

  ghost predicate Refines(s: I.State, v: Video, ev: Event) {
    var s' := I.Run(s, Sections(s, v, ev));
    Match(s', Step(v, ev)) && s'.tasks == map[]
  }

  /** The thread k of a state s that has begun its first section is by itself. */
  lemma Begun(s: I.State, k: nat, t: I.Task)
    requires s.tasks == map[]
    ensures s.Goes(k, t) == Only(s, k, t) && Idle(s) == s
  {
  }

  /** A toggle's first section, in a state by itself. */
  lemma ToggleBegins(s: I.State, k: nat, enabled: bool, next: Option<nat>)
    requires !s.Parks()
    ensures var value := if enabled then I.ON else I.OFF;
            var undo := if enabled then I.LocalOnly else I.Never;
            var begun := Only(s.(flags := value), k,
                              I.Switch(s.live, value, I.ThenSend(CameraToggle(enabled), undo, next)));
            I.BeginToggle(Idle(s), k, enabled, next) == begun
            && forall t :: I.BeginToggle(Only(s, k, t), k, enabled, next) == begun
  {
  }

  lemma ToggleAlone(s: I.State, k: nat, enabled: bool, ok: bool)
    requires !s.Parks()
    ensures var r := I.Resume(k, ok);
            I.Step(I.Step(I.Step(I.Step(I.BeginToggle(Idle(s), k, enabled, None), r), r), r), r) ==
            Idle(Toggled(s, enabled, ok))
  {
    ToggleBegins(s, k, enabled, None);
    var value := if enabled then I.ON else I.OFF;
    var undo := if enabled then I.LocalOnly else I.Never;
    CameraAlone(s, k, value, CameraToggle(enabled), undo, ok);
    hide I.Step, Only, Idle, Camera, I.BeginToggle;
  }

  /** A finished thread does nothing more. */
  lemma NothingLeft(s: I.State, k: nat, ok: bool)
    requires s.tasks == map[]
    ensures I.Step(s, I.Resume(k, ok)) == s
  {
    hide I.Continue;
  }

  function Begins(s: I.State): I.State {
    s.(nextTask := s.nextTask + 1)
  }

  lemma ToggleParks(s: I.State, k: nat, enabled: bool)
    requires s.tasks == map[] && s.Parks()
    ensures I.BeginToggle(s, k, enabled, None) == s.(parkedEnable := Some(enabled))
  {
    assert s.tasks - {k} == map[];
  }

  lemma ToggleFirst(s: I.State, enabled: bool)
    ensures I.Step(s, I.Toggle(enabled)) == I.BeginToggle(Begins(s), s.nextTask, enabled, None)
    ensures s.tasks == map[] ==> Idle(Begins(s)) == Begins(s)
    ensures Begins(s).Parks() <==> s.Parks()
  {
    hide I.BeginToggle;
  }

  lemma ToggleEnds(s: I.State, enabled: bool, ok: bool)
    requires s.tasks == map[]
    ensures var k, s0 := s.nextTask, Begins(s);
            var r := I.Resume(k, ok);
            I.Run(s, [I.Toggle(enabled), r, r, r, r]) ==
            if s.Parks() then s0.(parkedEnable := Some(enabled)) else Idle(Toggled(s0, enabled, ok))
  {
    hide *;
    var k, s0 := s.nextTask, Begins(s);
    var r := I.Resume(k, ok);
    RunFive(s, I.Toggle(enabled), r, r, r, r);
    ToggleFirst(s, enabled);
    if s.Parks() {
      BegunTasks(s);
      ToggleParks(s0, k, enabled);
      NothingLeft(s0.(parkedEnable := Some(enabled)), k, ok);
    } else {
      ToggleAlone(s0, k, enabled, ok);
    }
  }

  lemma BegunTasks(s: I.State)
    ensures Begins(s).tasks == s.tasks
  {
  }

  lemma BeginsMatches(s: I.State, v: Video)
    ensures Match(Begins(s), v) <==> Match(s, v)
    ensures Match(Idle(s), v) <==> Match(s, v)
    ensures Match(s, v) ==> (s.Parks() <==> v.Parks())
    ensures Idle(s).tasks == map[]
  {
  }

  lemma ToggleRefines(s: I.State, v: Video, enabled: bool, ok: bool)
    requires Match(s, v) && s.tasks == map[] && !v.ended
    ensures Refines(s, v, Toggling(enabled, ok))
  {
    hide I.Run, Toggled, AfterSwitch, I.Step, Idle;
    ToggleEnds(s, enabled, ok);
    BeginsMatches(s, v);
    if !v.Parks() {
      SwitchMatches(Begins(s), v, enabled, ok);
      BeginsMatches(Toggled(Begins(s), enabled, ok), AfterSwitch(v, enabled, ok));
    }
  }

  // ----- transitions -----

  lemma RequestFirst(s: I.State)
    requires s.tasks == map[]
    ensures I.Step(s, I.Transit(RequestUpgrade)) ==
            Only(Begins(s).(flags := I.GATED), s.nextTask,
                 I.Switch(s.live, I.GATED, I.ThenSend(UpgradeRequest, I.Current, None)))
  {
  }

  lemma StopFirst(s: I.State)
    requires s.tasks == map[]
    ensures I.Step(s, I.Transit(StopVideo)) ==
            Only(Begins(s).(flags := I.OFF), s.nextTask,
                 I.Switch(s.live, I.OFF, I.ThenSend(VideoStopped, I.Never, None)))
  {
  }

  lemma BeginsSender(s: I.State)
    ensures Begins(s).live == s.live
  {
  }

  lemma RequestEnds(s: I.State, ok: bool)
    requires s.tasks == map[]
    ensures var r := I.Resume(s.nextTask, ok);
            I.Run(s, [I.Transit(RequestUpgrade), r, r, r, r]) ==
            Idle(Camera(Begins(s), I.GATED, UpgradeRequest, I.Current, ok))
  {
    hide *;
    var r := I.Resume(s.nextTask, ok);
    BeginsSender(s);
    RunFive(s, I.Transit(RequestUpgrade), r, r, r, r);
    RequestFirst(s);
    CameraAlone(Begins(s), s.nextTask, I.GATED, UpgradeRequest, I.Current, ok);
  }

  lemma StopEnds(s: I.State, ok: bool)
    requires s.tasks == map[]
    ensures var r := I.Resume(s.nextTask, ok);
            I.Run(s, [I.Transit(StopVideo), r, r, r, r]) == Idle(Camera(Begins(s), I.OFF, VideoStopped, I.Never, ok))
  {
    hide *;
    var r := I.Resume(s.nextTask, ok);
    BeginsSender(s);
    RunFive(s, I.Transit(StopVideo), r, r, r, r);
    StopFirst(s);
    CameraAlone(Begins(s), s.nextTask, I.OFF, VideoStopped, I.Never, ok);
  }

  lemma ReplySection(s: I.State, k: nat, stopFirst: bool, ok: bool)
    ensures I.Step(Only(s, k, I.Reply(stopFirst)), I.Resume(k, ok)) ==
            if !ok then Only(s, k, I.ReplyUndo)
            else if stopFirst then Only(s.(wire := s.wire + [VideoStopped]), k, I.Reply(false))
            else Idle(s.(wire := s.wire + [UpgradeAccept]))
  {
    var t := I.Reply(stopFirst);
    OnlySteps(s, k, t, ok);
    OnlyGoes(s, k, t, I.ReplyUndo);
    OnlyGoes(s.(wire := s.wire + [VideoStopped]), k, t, I.Reply(false));
    OnlyThen(s.(wire := s.wire + [UpgradeAccept]), k, t, None);
    assert Only(s, k, t).wire == s.wire;
    assert Only(s, k, t).(wire := s.wire + [VideoStopped]) == Only(s.(wire := s.wire + [VideoStopped]), k, t);
    assert Only(s, k, t).(wire := s.wire + [UpgradeAccept]) == Only(s.(wire := s.wire + [UpgradeAccept]), k, t);
    hide I.Step, Only, Idle, I.State.Then, I.State.Goes;
  }

  lemma UndoSection(s: I.State, k: nat, ok: bool)
    ensures I.Step(Only(s, k, I.ReplyUndo), I.Resume(k, ok)) == Idle(s.(peerUpgrade := true))
  {
    OnlySteps(s, k, I.ReplyUndo, ok);
    OnlyThen(s.(peerUpgrade := true), k, I.ReplyUndo, None);
    assert Only(s, k, I.ReplyUndo).(peerUpgrade := true) == Only(s.(peerUpgrade := true), k, I.ReplyUndo);
    hide I.Step, Only, Idle, I.State.Then;
  }

  /** What answering a pending upgrade request comes to. */
  function Replied(s: I.State, ok: bool, ok': bool): I.State {
    if !ok then s.(peerUpgrade := true)
    else if s.flags.local then s.(peerUpgrade := false, wire := s.wire + [UpgradeAccept])
    else
      var s' := s.(wire := s.wire + [VideoStopped]);
      if ok' then s'.(peerUpgrade := false, wire := s'.wire + [UpgradeAccept]) else s'.(peerUpgrade := true)
  }

  lemma ReplyAlone(s: I.State, k: nat, ok: bool, ok': bool)
    requires !s.peerUpgrade
    ensures var r := I.Resume(k, ok');
            I.Step(I.Step(I.Step(I.Step(Only(s, k, I.Reply(!s.flags.local)), I.Resume(k, ok)), r), r), r) ==
            Idle(Replied(s, ok, ok'))
  {
    ReplySection(s, k, !s.flags.local, ok);
    var undone, said := s.(peerUpgrade := true), s.(wire := s.wire + [VideoStopped]);
    UndoSection(s, k, ok');
    ReplySection(said, k, false, ok');
    UndoSection(said, k, ok');
    OnlySteps(undone, k, I.ReplyUndo, ok');
    OnlySteps(s.(wire := s.wire + [UpgradeAccept]), k, I.ReplyUndo, ok');
    OnlySteps(said.(wire := said.wire + [UpgradeAccept]), k, I.ReplyUndo, ok');
    OnlySteps(said.(peerUpgrade := true), k, I.ReplyUndo, ok');
    hide I.Step, Only, Idle, I.Continue;
  }

  lemma AnswerFirst(s: I.State)
    requires s.tasks == map[]
    ensures I.Step(s, I.Transit(AcceptUpgrade)) ==
            if s.peerUpgrade then Only(Begins(s).(peerUpgrade := false), s.nextTask, I.Reply(!s.flags.local))
            else Begins(s)
  {
  }

  lemma AnswerEnds(s: I.State, ok: bool, ok': bool)
    requires s.tasks == map[]
    ensures var k := s.nextTask;
            var r := I.Resume(k, ok');
            I.Run(s, [I.Transit(AcceptUpgrade), I.Resume(k, ok), r, r, r]) ==
            if s.peerUpgrade then Idle(Replied(Begins(s).(peerUpgrade := false), ok, ok')) else Begins(s)
  {
    hide *;
    var k := s.nextTask;
    var r := I.Resume(k, ok');
    RunFive(s, I.Transit(AcceptUpgrade), I.Resume(k, ok), r, r, r);
    AnswerFirst(s);
    if s.peerUpgrade {
      ReplyAlone(Begins(s).(peerUpgrade := false), k, ok, ok');
      BegunFlags(s);
    } else {
      BegunTasks(s);
      NothingLeft(Begins(s), k, ok);
      NothingLeft(Begins(s), k, ok');
    }
  }

  lemma BegunFlags(s: I.State)
    ensures Begins(s).(peerUpgrade := false).flags == s.flags
  {
  }

  lemma LitReplyMatches(s: I.State, v: Video, ok: bool, ok': bool)
    requires Match(s, v) && v.peerUpgrade && v.localVideo
    ensures Match(Replied(s.(peerUpgrade := false), ok, ok'), AfterUpgradeAccept(v, ok, ok'))
  {
  }

  lemma DarkReplyFails(s: I.State, v: Video, ok': bool)
    requires Match(s, v) && v.peerUpgrade && !v.localVideo
    ensures Match(Replied(s.(peerUpgrade := false), false, ok'), AfterUpgradeAccept(v, false, ok'))
  {
  }

  lemma DarkReplyStops(s: I.State, v: Video)
    requires Match(s, v) && v.peerUpgrade && !v.localVideo
    ensures Match(Replied(s.(peerUpgrade := false), true, false), AfterUpgradeAccept(v, true, false))
  {
  }

  lemma DarkReplyGoes(s: I.State, v: Video)
    requires Match(s, v) && v.peerUpgrade && !v.localVideo
    ensures Match(Replied(s.(peerUpgrade := false), true, true), AfterUpgradeAccept(v, true, true))
  {
  }

  lemma ReplyMatches(s: I.State, v: Video, ok: bool, ok': bool)
    requires Match(s, v) && v.peerUpgrade
    ensures Match(Replied(s.(peerUpgrade := false), ok, ok'), AfterUpgradeAccept(v, ok, ok'))
  {
    hide Match, Replied, AfterUpgradeAccept;
    if v.localVideo {
      LitReplyMatches(s, v, ok, ok');
    } else {
      DarkReplyFails(s, v, ok');
      DarkReplyStops(s, v);
      DarkReplyGoes(s, v);
    }
  }

  lemma TransitionRefines(s: I.State, v: Video, t: Transition, ok: bool, ok': bool)
    requires Match(s, v) && s.tasks == map[] && !v.ended
    ensures Refines(s, v, Transitioning(t, ok, ok'))
  {
    hide I.Run, I.Step, Idle, Camera, Replied, AfterRequest, AfterUpgradeAccept;
    BeginsMatches(s, v);
    var s0 := Begins(s);
    match t
    case RequestUpgrade =>
      RequestEnds(s, ok);
      RequestMatches(s0, v, ok);
      BeginsMatches(Camera(s0, I.GATED, UpgradeRequest, I.Current, ok), AfterRequest(v, ok));
    case StopVideo =>
      StopEnds(s, ok);
      StopMatches(s0, v, ok);
      BeginsMatches(Camera(s0, I.OFF, VideoStopped, I.Never, ok), v.Off().Say(VideoStopped, ok));
    case AcceptUpgrade => AnswerRefines(s, v, ok, ok');
  }

  lemma AnswerRefines(s: I.State, v: Video, ok: bool, ok': bool)
    requires Match(s, v) && s.tasks == map[] && !v.ended
    ensures Refines(s, v, Transitioning(AcceptUpgrade, ok, ok'))
  {
    hide I.Run, I.Step, Idle, Replied;
    BeginsMatches(s, v);
    var s0 := Begins(s);
    AnswerEnds(s, ok, ok');
    if v.peerUpgrade {
      ReplyMatches(s0, v, ok, ok');
      BeginsMatches(Replied(s0.(peerUpgrade := false), ok, ok'), AfterUpgradeAccept(v, ok, ok'));
    }
  }

  // ----- peer stanzas -----

  lemma SwitchOnlySection(s: I.State, k: nat, p: Option<nat>, value: I.Flags, ok: bool)
    ensures I.Step(Only(s, k, I.Switch(p, value, I.Done)), I.Resume(k, ok)) == Idle(s.Switched(p, value))
  {
    var t := I.Switch(p, value, I.Done);
    OnlySteps(s, k, t, ok);
    OnlyThen(s.Switched(p, value), k, t, None);
    assert Only(s, k, t).Switched(p, value) == Only(s.Switched(p, value), k, t);
    hide I.Step, Only, Idle, I.State.Then;
  }

  lemma AnnounceSection(s: I.State, k: nat, p: Option<nat>, ok: bool)
    ensures I.Step(Only(s, k, I.Announce(p)), I.Resume(k, ok)) ==
            if ok then Only(s.(wire := s.wire + [VideoAnnounced]), k, I.Switch(p, I.ON, I.Done))
            else Only(s, k, I.TakeBack(p, I.Captured, None))
  {
    var t := I.Announce(p);
    OnlySteps(s, k, t, ok);
    OnlyGoes(s.(wire := s.wire + [VideoAnnounced]), k, t, I.Switch(p, I.ON, I.Done));
    OnlyGoes(s, k, t, I.TakeBack(p, I.Captured, None));
    assert Only(s, k, t).wire == s.wire;
    assert Only(s, k, t).(wire := s.wire + [VideoAnnounced]) == Only(s.(wire := s.wire + [VideoAnnounced]), k, t);
    hide I.Step, Only, Idle, I.State.Goes;
  }

  /** What an announcement after a peer's accept comes to. */
  function Announced(s: I.State, ok: bool): I.State {
    if ok then s.(flags := I.ON, wire := s.wire + [VideoAnnounced]).Switched(s.live, I.ON)
    else s.(flags := I.OFF).Switched(s.live, I.OFF)
  }

  lemma AnnounceAlone(s: I.State, k: nat, ok: bool)
    ensures var r := I.Resume(k, ok);
            I.Step(I.Step(I.Step(Only(s.(flags := I.ON), k, I.Announce(s.live)), r), r), r) == Idle(Announced(s, ok))
  {
    var s0 := s.(flags := I.ON);
    AnnounceSection(s0, k, s.live, ok);
    if ok {
      SwitchOnlySection(s0.(wire := s.wire + [VideoAnnounced]), k, s.live, I.ON, ok);
      OnlySteps(Announced(s, ok), k, I.ReplyUndo, ok);
    } else {
      TakeBackSection(s0, k, s.live, I.Captured, None, ok);
      CloseSection(s.(flags := I.OFF), k, s.live, None, ok);
      OnlyThen(Announced(s, ok), k, I.ReplyUndo, None);
    }
    hide I.Step, Only, Idle, I.State.Then, I.Continue;
  }

  /** What a peer stanza comes to. */
  function Peered(s: I.State, p: PeerState, ok: bool): I.State {
    match p
    case PeerUpgradeRequest => s.(peerUpgrade := true)
    case PeerEnabled => if s.flags == I.GATED then s.(flags := I.ON).Switched(s.live, I.ON) else s
    case PeerAccept => Announced(s, ok)
    case PeerReject =>
      if s.flags.gate then s.(peerUpgrade := false, flags := I.OFF).Switched(s.live, I.OFF)
      else s.(peerUpgrade := false)
    case _ => s
  }

  lemma PeerFirst(s: I.State, p: PeerState)
    requires s.tasks == map[]
    ensures var k, s0 := s.nextTask, Begins(s);
            I.Step(s, I.Peer(p)) ==
            match p
            case PeerUpgradeRequest => s0.(peerUpgrade := true)
            case PeerEnabled =>
              if s.flags == I.GATED then Only(s0.(flags := I.ON), k, I.Switch(s.live, I.ON, I.Done)) else s0
            case PeerAccept => Only(s0.(flags := I.ON), k, I.Announce(s.live))
            case PeerReject =>
              if s.flags.gate
              then Only(s0.(peerUpgrade := false, flags := I.OFF), k, I.Switch(s.live, I.OFF, I.Done))
              else s0.(peerUpgrade := false)
            case _ => s0
  {
  }

  /** A thread with one switch to make has ended after it. */
  lemma SwitchAlone(s: I.State, k: nat, value: I.Flags, ok: bool)
    ensures var r := I.Resume(k, ok);
            I.Step(I.Step(I.Step(Only(s, k, I.Switch(s.live, value, I.Done)), r), r), r) ==
            Idle(s.Switched(s.live, value))
  {
    SwitchOnlySection(s, k, s.live, value, ok);
    OnlySteps(s.Switched(s.live, value), k, I.ReplyUndo, ok);
    hide I.Step, Only, Idle, I.State.Switched, I.Continue;
  }

  lemma PeerEnds(s: I.State, p: PeerState, ok: bool)
    requires s.tasks == map[]
    ensures var r := I.Resume(s.nextTask, ok);
            I.Run(s, [I.Peer(p), r, r, r]) == Idle(Peered(Begins(s), p, ok))
  {
    hide I.Step, I.Run, Only, Announced, I.State.Switched;
    var k, s0 := s.nextTask, Begins(s);
    var r := I.Resume(k, ok);
    RunFive(s, I.Peer(p), r, r, r, r);
    PeerFirst(s, p);
    AnnounceAlone(s0, k, ok);
    SwitchAlone(s0.(flags := I.ON), k, I.ON, ok);
    SwitchAlone(s0.(peerUpgrade := false, flags := I.OFF), k, I.OFF, ok);
    NothingLeft(Idle(s0), k, ok);
    NothingLeft(Idle(s0).(peerUpgrade := true), k, ok);
    NothingLeft(Idle(s0).(peerUpgrade := false), k, ok);
    assert Idle(s0) == s0;
  }

  lemma PeerMatches(s: I.State, v: Video, p: PeerState, ok: bool)
    requires Match(s, v)
    ensures Match(Peered(s, p, ok), AfterStanza(v, p, ok))
  {
    hide AfterPeerAccept, Announced;
    AnnounceMatches(s, v, ok);
  }

  lemma AnnounceMatches(s: I.State, v: Video, ok: bool)
    requires Match(s, v)
    ensures Match(Announced(s, ok), AfterPeerAccept(v, ok))
  {
  }

  lemma StanzaRefines(s: I.State, v: Video, p: PeerState, ok: bool)
    requires Match(s, v) && s.tasks == map[]
    ensures Refines(s, v, PeerStanza(p, ok))
  {
    hide I.Run, I.Step, Idle, Peered, AfterStanza;
    BeginsMatches(s, v);
    PeerEnds(s, p, ok);
    PeerMatches(Begins(s), v, p, ok);
    BeginsMatches(Peered(Begins(s), p, ok), AfterStanza(v, p, ok));
  }

  // ----- orientation -----

  /** What an orientation change from 0 to 3 comes to. */
  function Oriented(s: I.State, o: nat, ok: bool): I.State {
    if s.Parks() then s.(parkedOrientation := Some(o))
    else if s.flags.local && ok then s.(wire := s.wire + [CameraOrientation(o)])
    else s
  }

  lemma OrientSection(s: I.State, k: nat, o: nat, ok: bool)
    ensures I.Step(Only(s, k, I.OrientSend(o)), I.Resume(k, ok)) ==
            Idle(if ok then s.(wire := s.wire + [CameraOrientation(o)]) else s)
  {
    var t := I.OrientSend(o);
    OnlySteps(s, k, t, ok);
    OnlyThen(s, k, t, None);
    OnlyThen(s.(wire := s.wire + [CameraOrientation(o)]), k, t, None);
    assert Only(s, k, t).wire == s.wire;
    assert Only(s, k, t).(wire := s.wire + [CameraOrientation(o)]) ==
           Only(s.(wire := s.wire + [CameraOrientation(o)]), k, t);
    hide I.Step, Only, Idle, I.State.Then;
  }

  /** The first section, from a thread of its own or the one it waited for. */
  lemma OrientBegins(s: I.State, k: nat, t: I.Task, o: nat)
    ensures var begun := if !s.Parks() && s.flags.local then Only(s, k, I.OrientSend(o))
                         else Idle(Oriented(s, o, false));
            I.BeginOrient(Only(s, k, t), k, o) == begun && I.BeginOrient(Idle(s), k, o) == begun
  {
    OnlyGoes(s, k, t, I.OrientSend(o));
    OnlyThen(s, k, t, None);
    OnlyThen(s.(parkedOrientation := Some(o)), k, t, None);
    assert Only(s, k, t).(parkedOrientation := Some(o)) == Only(s.(parkedOrientation := Some(o)), k, t);
    hide I.State.Then, I.State.Goes;
  }

  lemma OrientAlone(s: I.State, k: nat, o: nat, ok: bool)
    ensures I.Step(I.BeginOrient(Idle(s), k, o), I.Resume(k, ok)) == Idle(Oriented(s, o, ok))
  {
    OrientBegins(s, k, I.ReplyUndo, o);
    OrientSection(s, k, o, ok);
    OnlySteps(Oriented(s, o, false), k, I.ReplyUndo, ok);
    hide I.Step, Only, Idle, I.BeginOrient, I.Continue;
  }

  lemma OrientMatches(s: I.State, v: Video, o: nat, ok: bool)
    requires Match(s, v) && !v.ended && o <= 3
    ensures Match(Oriented(s, o, ok), AfterOrientation(v, o, ok))
  {
  }

  lemma OrientFirst(s: I.State, o: nat)
    requires s.tasks == map[]
    ensures I.Step(s, I.Orient(o)) == if o > 3 then s else I.BeginOrient(Idle(Begins(s)), s.nextTask, o)
  {
    assert Idle(Begins(s)) == Begins(s);
    hide I.BeginOrient, Idle;
  }

  lemma OrientRefines(s: I.State, v: Video, o: int, ok: bool)
    requires Match(s, v) && s.tasks == map[] && !v.ended
    ensures Refines(s, v, Orienting(o, ok))
  {
    hide I.Step, Idle, Oriented, I.BeginOrient, Match;
    if o >= 0 {
      BeginsMatches(s, v);
      OrientFirst(s, o);
      RunTwo(s, I.Orient(o), I.Resume(s.nextTask, ok));
      if o > 3 {
        NothingLeft(s, s.nextTask, ok);
      } else {
        OrientAlone(Begins(s), s.nextTask, o, ok);
        OrientMatches(Begins(s), v, o, ok);
        BeginsMatches(Oriented(Begins(s), o, ok), AfterOrientation(v, o, ok));
      }
    }
  }

  // ----- the accept and what it releases -----

  /** A parked orientation is one of the four. */
  predicate Fits(v: Video) {
    v.parkedOrientation.Some? ==> v.parkedOrientation.value <= 3
  }

  /** The call goes on or not as before, and an orientation it parks still fits. */
  predicate SameRest(v: Video, v': Video) {
    v'.ended == v.ended && (Fits(v) ==> Fits(v'))
  }

  lemma AnswerRest(v: Video, ok: bool, ok': bool)
    ensures SameRest(v, AfterUpgradeAccept(v, ok, ok'))
  {
  }

  lemma TransitionRest(v: Video, t: Transition, ok: bool, ok': bool)
    ensures SameRest(v, AfterTransition(v, t, ok, ok'))
  {
    hide AfterUpgradeAccept;
    AnswerRest(v, ok, ok');
  }

  lemma SwitchRest(v: Video, enabled: bool, ok: bool)
    ensures SameRest(v, AfterSwitch(v, enabled, ok))
  {
  }

  lemma ToggleRest(v: Video, enabled: bool, ok: bool)
    ensures SameRest(v, AfterToggle(v, enabled, ok))
  {
    hide AfterSwitch;
    SwitchRest(v, enabled, ok);
  }

  lemma PeerAcceptRest(v: Video, ok: bool)
    ensures SameRest(v, AfterPeerAccept(v, ok))
  {
  }

  lemma PeerFlagsRest(v: Video)
    ensures SameRest(v, AfterPeerEnabled(v)) && SameRest(v, AfterPeerReject(v))
  {
  }

  lemma StanzaRest(v: Video, p: PeerState, ok: bool)
    ensures SameRest(v, AfterStanza(v, p, ok))
  {
    hide AfterPeerAccept, AfterPeerEnabled, AfterPeerReject;
    PeerAcceptRest(v, ok);
    PeerFlagsRest(v);
  }

  lemma OrientationRest(v: Video, o: int, ok: bool)
    ensures SameRest(v, AfterOrientation(v, o, ok))
  {
  }

  lemma ReleaseRest(v: Video, toggleOk: bool, orientOk: bool)
    ensures AfterRelease(v, toggleOk, orientOk).ended == v.ended && Fits(AfterRelease(v, toggleOk, orientOk))
  {
    hide AfterToggle, AfterOrientation;
    var v1 := v.(acceptSent := true, parkedEnable := None, parkedOrientation := None);
    var v2 := v1;
    if v.parkedEnable.Some? {
      ToggleRest(v1, v.parkedEnable.value, toggleOk);
      v2 := AfterToggle(v1, v.parkedEnable.value, toggleOk);
    }
    if v.parkedOrientation.Some? {
      OrientationRest(v2, v.parkedOrientation.value, orientOk);
    }
  }

  lemma AcceptRest(v: Video, ok: bool, toggleOk: bool, orientOk: bool)
    ensures SameRest(v, AfterAccept(v, ok, toggleOk, orientOk))
  {
    hide AfterRelease;
    ReleaseRest(v.(acceptPending := false).Say(CallAccept(v.localVideo || v.remoteVideo), ok), toggleOk, orientOk);
  }

  lemma MarkRest(v: Video, ev: Event)
    requires ev.Answering? || ev.JoiningGroup? || ev.MediaUp? || ev.MediaDown? || ev.Frame? || ev.KeyframeRequest?
    ensures SameRest(v, Step(v, ev))
  {
    hide AfterTransition, AfterToggle, AfterOrientation, AfterStanza, AfterAccept, AfterFrame, SameRest;
    SenderRest(v, None);
    if v.sender.Some? && ev.Frame? {
      SenderRest(v, Some(AfterFrame(v.sender.value, ev.au)));
    }
    if v.sender.Some? && ev.KeyframeRequest? {
      SenderRest(v, Some(v.sender.value.(keyframeRequired := true)));
    }
    SenderRest(v, Some(Gate(v.localVideo, v.videoGate, true)));
  }

  lemma SenderRest(v: Video, sender: Option<Gate>)
    ensures SameRest(v, v) && SameRest(v, v.(sender := sender))
    ensures SameRest(v, v.(acceptPending := true)) && SameRest(v, v.(group := true))
  {
  }

  /** A call ends only when it is ended, and what is parked always fits. */
  lemma StepRest(v: Video, ev: Event)
    requires !ev.Ending?
    ensures SameRest(v, Step(v, ev))
  {
    hide SameRest, AfterTransition, AfterToggle, AfterOrientation, AfterStanza, AfterAccept, AfterFrame;
    match ev
    case Transitioning(t, ok, ok') => TransitionRest(v, t, ok, ok');
    case Toggling(enabled, ok) => ToggleRest(v, enabled, ok);
    case Orienting(o, ok) => OrientationRest(v, o, ok);
    case PeerStanza(p, ok) => StanzaRest(v, p, ok);
    case Accepting(ok, toggleOk, orientOk) => AcceptRest(v, ok, toggleOk, orientOk);
    case _ => MarkRest(v, ev);
  }

  /** Resuming threads that are not there does nothing. */
  lemma {:induction false} RunNothing(s: I.State, acts: seq<I.Action>)
    requires s.tasks == map[] && forall i :: 0 <= i < |acts| ==> acts[i].Resume?
    ensures I.Run(s, acts) == s
    decreases |acts|
  {
    if acts != [] {
      NothingLeft(s, acts[0].k, acts[0].ok);
      RunNothing(s, acts[1..]);
    }
  }

  lemma AcceptFirst(s: I.State, video: bool)
    requires s.tasks == map[]
    ensures I.Step(s, I.Accept(video)) ==
            if s.acceptPending then Only(Begins(s).(acceptPending := false), s.nextTask, I.AcceptSend(video)) else s
  {
  }

  lemma AcceptSection(s: I.State, k: nat, video: bool, ok: bool)
    ensures I.Step(Only(s, k, I.AcceptSend(video)), I.Resume(k, ok)) ==
            if ok then Only(s.(wire := s.wire + [CallAccept(video)]), k, I.AcceptRelease) else Idle(s)
  {
    var t := I.AcceptSend(video);
    OnlySteps(s, k, t, ok);
    OnlyThen(s, k, t, None);
    OnlyGoes(s.(wire := s.wire + [CallAccept(video)]), k, t, I.AcceptRelease);
    assert Only(s, k, t).wire == s.wire;
    assert Only(s, k, t).(wire := s.wire + [CallAccept(video)]) == Only(s.(wire := s.wire + [CallAccept(video)]), k, t);
    hide I.Step, Only, Idle, I.State.Then, I.State.Goes;
  }

  /** With the accept out nothing is parked any more. */
  function Released(s: I.State): I.State {
    s.(acceptSent := true, parkedEnable := None, parkedOrientation := None)
  }

  lemma ReleaseSection(s: I.State, k: nat, ok: bool)
    ensures I.Step(Only(s, k, I.AcceptRelease), I.Resume(k, ok)) ==
            if s.parkedEnable.Some? then Only(Released(s), k, I.ToggleTurn(s.parkedEnable.value, s.parkedOrientation))
            else Idle(Released(s)).Then(k, s.parkedOrientation)
  {
    var t := I.AcceptRelease;
    OnlySteps(s, k, t, ok);
    OnlyThen(Released(s), k, t, s.parkedOrientation);
    if s.parkedEnable.Some? {
      OnlyGoes(Released(s), k, t, I.ToggleTurn(s.parkedEnable.value, s.parkedOrientation));
    }
    assert Released(Only(s, k, t)) == Only(Released(s), k, t);
    assert Only(s, k, t).parkedEnable == s.parkedEnable && Only(s, k, t).parkedOrientation == s.parkedOrientation;
    hide I.Step, Only, Idle, I.State.Then, I.State.Goes;
  }

  lemma AcceptSections(s: I.State, video: bool, ok: bool)
    requires s.tasks == map[]
    ensures var k := s.nextTask;
            var s0 := Begins(s).(acceptPending := false);
            var s1 := s0.(wire := s.wire + [CallAccept(video)]);
            I.Run(s, [I.Accept(video), I.Resume(k, ok), I.Resume(k, ok)]) ==
            if !s.acceptPending then s
            else if !ok then Idle(s0)
            else if s.parkedEnable.Some? then
              Only(Released(s1), k, I.ToggleTurn(s.parkedEnable.value, s.parkedOrientation))
            else Idle(Released(s1)).Then(k, s.parkedOrientation)
  {
    hide I.Step, I.Run, Only, Idle, I.State.Then, Released;
    var k, r := s.nextTask, I.Resume(s.nextTask, ok);
    RunThree(s, I.Accept(video), r, r);
    AcceptFirst(s, video);
    var s0 := Begins(s).(acceptPending := false);
    if !s.acceptPending {
      NothingLeft(s, k, ok);
    } else {
      AcceptSection(s0, k, video, ok);
      ReleaseSection(s0.(wire := s.wire + [CallAccept(video)]), k, ok);
      OnlySteps(s0, k, I.ReplyUndo, ok);
    }
  }

  /** The released toggle, in front of a waiting orientation. */
  lemma ReleasedToggle(s: I.State, k: nat, enabled: bool, next: Option<nat>, ok: bool)
    requires !s.Parks()
    ensures var r := I.Resume(k, ok);
            I.Run(Only(s, k, I.ToggleTurn(enabled, next)), [r, r, r] + if enabled && !ok then [r, r] else []) ==
            Idle(Toggled(s, enabled, ok)).Then(k, next)
  {
    var r, t := I.Resume(k, ok), I.ToggleTurn(enabled, next);
    var s0 := Only(s, k, t);
    var value := if enabled then I.ON else I.OFF;
    var undo := if enabled then I.LocalOnly else I.Never;
    OnlySteps(s, k, t, ok);
    ToggleBegins(s, k, enabled, next);
    assert I.Step(s0, r) == I.BeginToggle(s0, k, enabled, next);
    CameraThread(s, k, value, CameraToggle(enabled), undo, next, ok);
    assert undo.Never? <==> !enabled;
    hide I.Step, I.Run, Only, Idle, Camera, I.State.Then, I.BeginToggle;
    if enabled && !ok {
      RunFive(s0, r, r, r, r, r);
      assert [r, r, r] + [r, r] == [r, r, r, r, r];
    } else {
      RunThree(s0, r, r, r);
      assert [r, r, r] + [] == [r, r, r];
    }
  }

  /** The released orientation. */
  lemma ReleasedOrientation(s: I.State, k: nat, next: Option<nat>, ok: bool)
    ensures I.Run(Idle(s).Then(k, next), [I.Resume(k, ok), I.Resume(k, ok)]) ==
            Idle(if next.Some? then Oriented(s, next.value, ok) else s)
  {
    OnlyThen(s, k, I.ReplyUndo, next);
    var r := I.Resume(k, ok);
    RunTwo(Idle(s).Then(k, next), r, r);
    if next.Some? {
      var t := I.OrientTurn(next.value);
      OnlySteps(s, k, t, ok);
      OrientBegins(s, k, t, next.value);
      OrientAlone(s, k, next.value, ok);
    } else {
      OnlySteps(s, k, I.ReplyUndo, ok);
    }
    hide I.Step, I.Run, Only, Idle, I.State.Then, I.BeginOrient, Oriented;
  }

  /** What a sent accept and the controls it releases come to. */
  function Accepted(s: I.State, video: bool, toggleOk: bool, orientOk: bool): I.State {
    var s1 := Released(s.(acceptPending := false, wire := s.wire + [CallAccept(video)]));
    var s2 := if s.parkedEnable.Some? then Toggled(s1, s.parkedEnable.value, toggleOk) else s1;
    if s.parkedOrientation.Some? then Oriented(s2, s.parkedOrientation.value, orientOk) else s2
  }

  /** The toggle's sections and the orientation's, one after the other. */
  lemma ReleaseEnds(s: I.State, v: Video, k: nat, toggleOk: bool, orientOk: bool, next: Option<nat>)
    requires !s.Parks()
    ensures var begun := if v.parkedEnable.Some? then Only(s, k, I.ToggleTurn(v.parkedEnable.value, next))
                         else Idle(s).Then(k, next);
            var s2 := if v.parkedEnable.Some? then Toggled(s, v.parkedEnable.value, toggleOk) else s;
            I.Run(begun, ToggleSections(v, k, toggleOk) + [I.Resume(k, orientOk), I.Resume(k, orientOk)]) ==
            Idle(if next.Some? then Oriented(s2, next.value, orientOk) else s2)
  {
    var last := [I.Resume(k, orientOk), I.Resume(k, orientOk)];
    hide I.Run, I.Step, Only, Idle, Toggled, Oriented, I.State.Then, I.State.Parks;
    if v.parkedEnable.Some? {
      ReleasedToggle(s, k, v.parkedEnable.value, next, toggleOk);
      RunAppend(Only(s, k, I.ToggleTurn(v.parkedEnable.value, next)), ToggleSections(v, k, toggleOk), last);
      ReleasedOrientation(Toggled(s, v.parkedEnable.value, toggleOk), k, next, orientOk);
    } else {
      assert [] + last == last;
      ReleasedOrientation(s, k, next, orientOk);
    }
  }

  lemma AcceptEnds(s: I.State, v: Video, ok: bool, toggleOk: bool, orientOk: bool)
    requires Match(s, v) && s.tasks == map[]
    ensures I.Run(s, Sections(s, v, Accepting(ok, toggleOk, orientOk))) ==
            if !s.acceptPending then s
            else if ok then Idle(Accepted(Begins(s), v.localVideo || v.remoteVideo, toggleOk, orientOk))
            else Idle(Begins(s).(acceptPending := false))
  {
    var k, video := s.nextTask, v.localVideo || v.remoteVideo;
    var first := [I.Accept(video), I.Resume(k, ok), I.Resume(k, ok)];
    var rest := ToggleSections(v, k, toggleOk) + [I.Resume(k, orientOk), I.Resume(k, orientOk)];
    hide I.Run, I.Step, Only, Idle, Toggled, Oriented, Released, I.State.Then, I.State.Parks;
    assert Sections(s, v, Accepting(ok, toggleOk, orientOk)) == first + rest;
    AcceptSections(s, video, ok);
    RunAppend(s, first, rest);
    if !s.acceptPending {
      RunNothing(s, rest);
    } else if !ok {
      IdleTasks(Begins(s).(acceptPending := false));
      RunNothing(Idle(Begins(s).(acceptPending := false)), rest);
    } else {
      var s1 := Begins(s).(acceptPending := false, wire := s.wire + [CallAccept(video)]);
      ReleasedParks(s1);
      ReleaseEnds(Released(s1), v, k, toggleOk, orientOk, s.parkedOrientation);
    }
  }

  lemma IdleTasks(s: I.State)
    ensures Idle(s).tasks == map[]
  {
  }

  lemma ReleasedParks(s: I.State)
    ensures !Released(s).Parks()
  {
  }

  lemma ReleasedMatches(s: I.State, v: Video)
    requires Match(s, v)
    ensures var stanza := CallAccept(v.localVideo || v.remoteVideo);
            var v1 := v.(acceptPending := false).Say(stanza, true);
            Match(Released(s.(acceptPending := false, wire := s.wire + [stanza])),
                  v1.(acceptSent := true, parkedEnable := None, parkedOrientation := None))
  {
  }

  lemma AcceptMatches(s: I.State, v: Video, toggleOk: bool, orientOk: bool)
    requires Match(s, v) && Fits(v) && !v.ended && v.acceptPending
    ensures Match(Accepted(s, v.localVideo || v.remoteVideo, toggleOk, orientOk),
                  AfterAccept(v, true, toggleOk, orientOk))
  {
    ReleasedMatches(s, v);
    var stanza := CallAccept(v.localVideo || v.remoteVideo);
    var s1 := Released(s.(acceptPending := false, wire := s.wire + [stanza]));
    var v1 := v.(acceptPending := false).Say(stanza, true)
               .(acceptSent := true, parkedEnable := None, parkedOrientation := None);
    assert s.parkedEnable == v.parkedEnable && s.parkedOrientation == v.parkedOrientation;
    hide Match, Toggled, Oriented, AfterSwitch, AfterOrientation, Released;
    var s2, v2 := s1, v1;
    if v.parkedEnable.Some? {
      SwitchMatches(s1, v1, v.parkedEnable.value, toggleOk);
      s2, v2 := Toggled(s1, v.parkedEnable.value, toggleOk), AfterSwitch(v1, v.parkedEnable.value, toggleOk);
      SwitchRest(v1, v.parkedEnable.value, toggleOk);
    }
    if v.parkedOrientation.Some? {
      OrientMatches(s2, v2, v.parkedOrientation.value, orientOk);
    }
  }

  lemma UnsentMatches(s: I.State, v: Video, toggleOk: bool, orientOk: bool)
    requires Match(s, v)
    ensures s.acceptPending == v.acceptPending
    ensures !v.acceptPending ==> forall ok :: Match(s, AfterAccept(v, ok, toggleOk, orientOk))
    ensures v.acceptPending ==> Match(Idle(s.(acceptPending := false)), AfterAccept(v, false, toggleOk, orientOk))
  {
    hide AfterRelease;
  }

  lemma AcceptRefines(s: I.State, v: Video, ok: bool, toggleOk: bool, orientOk: bool)
    requires Match(s, v) && Fits(v) && s.tasks == map[] && !v.ended
    ensures Refines(s, v, Accepting(ok, toggleOk, orientOk))
  {
    hide I.Run, I.Step, Idle, Accepted, Match, AfterAccept, Sections;
    AcceptEnds(s, v, ok, toggleOk, orientOk);
    BeginsMatches(s, v);
    UnsentMatches(s, v, toggleOk, orientOk);
    UnsentMatches(Begins(s), v, toggleOk, orientOk);
    if v.acceptPending && ok {
      var accepted := Accepted(Begins(s), v.localVideo || v.remoteVideo, toggleOk, orientOk);
      AcceptMatches(Begins(s), v, toggleOk, orientOk);
      BeginsMatches(accepted, AfterAccept(v, true, toggleOk, orientOk));
    } else if v.acceptPending {
      IdleTasks(Begins(s).(acceptPending := false));
    }
  }

  // ----- whole runs -----

  lemma MarkRefines(s: I.State, v: Video, ev: Event)
    requires Match(s, v) && s.tasks == map[]
    requires ev.Answering? || ev.JoiningGroup? || ev.MediaUp? || ev.MediaDown? || ev.Frame? || ev.KeyframeRequest?
    ensures Refines(s, v, ev)
  {
    RunOne(s, I.Answer);
    RunOne(s, I.JoinGroup);
    RunOne(s, I.Publish);
    RunOne(s, I.Unpublish);
    assert I.Run(s, []) == s;
    hide I.Run;
  }

  /** Every operation, run to its end by itself, does in the model of critical sections what it does
      as a whole. */
  lemma OperationRefines(s: I.State, v: Video, ev: Event)
    requires Match(s, v) && Fits(v) && s.tasks == map[] && !v.ended && !ev.Ending?
    ensures Refines(s, v, ev)
  {
    hide Refines, Match, Fits;
    match ev
    case Transitioning(t, ok, ok') => TransitionRefines(s, v, t, ok, ok');
    case Toggling(enabled, ok) => ToggleRefines(s, v, enabled, ok);
    case Orienting(o, ok) => OrientRefines(s, v, o, ok);
    case PeerStanza(p, ok) => StanzaRefines(s, v, p, ok);
    case Accepting(ok, toggleOk, orientOk) => AcceptRefines(s, v, ok, toggleOk, orientOk);
    case _ => MarkRefines(s, v, ev);
  }

  /** The sections of a run of operations, one operation after the other. */
  function AllSections(s: I.State, v: Video, evs: seq<Event>): seq<I.Action>
    decreases |evs|
  {
    if evs == [] then []
    else
      var front, ev := evs[..|evs| - 1], evs[|evs| - 1];
      var before := AllSections(s, v, front);
      before + Sections(I.Run(s, before), Run(v, front), ev)
  }

  /** Any run of operations on a call, one after the other, ends alike in both models. */
  lemma {:induction false} RunRefines(incoming: bool, group: bool, video: bool, evs: seq<Event>)
    requires forall i :: 0 <= i < |evs| ==> !evs[i].Ending?
    ensures var s, v := I.Fresh(incoming, group, video), Opened(incoming, group, video);
            var s' := I.Run(s, AllSections(s, v, evs));
            Match(s', Run(v, evs)) && s'.tasks == map[] && Fits(Run(v, evs)) && !Run(v, evs).ended
    decreases |evs|
  {
    var s, v := I.Fresh(incoming, group, video), Opened(incoming, group, video);
    if evs != [] {
      hide Match, Fits, Sections, Step, I.Run;
      var front, ev := evs[..|evs| - 1], evs[|evs| - 1];
      RunRefines(incoming, group, video, front);
      var before := AllSections(s, v, front);
      OperationRefines(I.Run(s, before), Run(v, front), ev);
      RunAppend(s, before, Sections(I.Run(s, before), Run(v, front), ev));
      StepRest(Run(v, front), ev);
    }
  }
}
