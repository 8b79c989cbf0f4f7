/**
  Whole runs of one call's video: the engine's call driven along any sequence of events, and which
  of them put a video stanza on the wire before the accept.
 */
module VideoRuns {
  import opened Common
  import opened VideoNegotiation

  /** The call is answered, joins a group, or ends. */
  method Mark(c: EngineCall, ev: Event)
    requires ev.Answering? || ev.JoiningGroup? || ev.Ending?
    modifies c`acceptPending, c`group, c`ended
    ensures c.View() == Step(old(c.View()), ev)
  {
    match ev
    case Answering => c.acceptPending := true;
    case JoiningGroup => c.group := true;
    case Ending => c.ended := true;
  }

  /** Frames and keyframe requests reach the sender there is. */
  method Feed(c: EngineCall, ev: Event)
    requires ev.Frame? || ev.KeyframeRequest?
    modifies c.videoTx
    ensures c.View() == Step(old(c.View()), ev)
  {
    hide AfterFrame;
    if c.videoTx != null {
      if ev.Frame? {
        var _ := c.videoTx.ProtectAccessUnit(ev.au);
      } else {
        c.videoTx.RequestKeyframe();
      }
    }
  }

  method StartSender(c: EngineCall)
    modifies c`videoTx
    ensures c.View() == Step(old(c.View()), MediaUp) && fresh(c.videoTx)
  {
    c.PublishSender();
  }

  method StopSender(c: EngineCall)
    modifies c`videoTx
    ensures c.View() == Step(old(c.View()), MediaDown) && c.videoTx == null
  {
    c.videoTx := null;
  }

  method Perform(c: EngineCall, ev: Event)
    modifies c, c.videoTx
    ensures c.View() == Step(old(c.View()), ev)
    ensures c.videoTx != old(c.videoTx) ==> c.videoTx == null || fresh(c.videoTx)
  {
    hide EngineCall.View, AfterTransition, AfterToggle, AfterOrientation, AfterStanza, AfterAccept, TransitionFails;
    match ev
    case Transitioning(t, ok, ok') =>
      var _ := c.TransitionVideo(t, ok, ok');
    case Toggling(enabled, ok) =>
      var _ := c.SetVideoEnabled(enabled, ok);
    case Orienting(o, ok) =>
      var _ := c.SetVideoOrientation(o, ok);
    case PeerStanza(p, ok) => c.OnVideoStanza(p, ok);
    case Accepting(ok, toggleOk, orientOk) => c.SendAccept(ok, toggleOk, orientOk);
    case MediaUp => StartSender(c);
    case MediaDown => StopSender(c);
    case Frame(_) | KeyframeRequest => Feed(c, ev);
    case Answering | JoiningGroup | Ending => Mark(c, ev);
  }

  /** The engine's call follows any run of events. */
  method Drive(incoming: bool, group: bool, video: bool, evs: seq<Event>) returns (c: EngineCall)
    ensures c.View() == Run(Opened(incoming, group, video), evs)
  {
    hide EngineCall.View, Step;
    c := new EngineCall(incoming, group, video);
    ghost var start := Opened(incoming, group, video);
    assert evs[..0] == [];
    for i := 0 to |evs|
      invariant fresh(c) && (c.videoTx != null ==> fresh(c.videoTx))
      invariant c.View() == Run(start, evs[..i])
    {
      assert evs[..i + 1][..i] == evs[..i];
      Perform(c, evs[i]);
    }
    assert evs[..|evs|] == evs;
  }

  // ----- what precedes the accept -----

  /** The event puts a video stanza on the wire although the accept is not out: a successful upgrade
      request or stop, the first stanza of an accepted upgrade, or an announced peer accept. */
  predicate SpeaksEarly(v: Video, ev: Event) {
    match ev
    case Transitioning(t, ok, _) => ok && !v.ended && (t.AcceptUpgrade? ==> v.peerUpgrade)
    case PeerStanza(p, ok) => ok && p.PeerAccept?
    case _ => false
  }

  /** The event sends the accept. */
  predicate Accepts(v: Video, ev: Event) {
    ev.Accepting? && ev.ok && v.acceptPending
  }

  /** Nothing has been said on a direct incoming call. */
  predicate Silent(v: Video) {
    v.wire == [] && v.incoming && !v.group && !v.acceptSent
  }

  /** A wire whose first stanza is a video stanza, that is, one with a video stanza before the first
      accept. */
  predicate VideoFirst(wire: seq<Stanza>) {
    wire != [] && !wire[0].CallAccept?
  }

  // Every operation only adds to the wire, and only these break the silence.

  lemma TransitionWire(v: Video, t: Transition, ok: bool, ok': bool)
    ensures v.wire <= AfterTransition(v, t, ok, ok').wire
    ensures Silent(v) ==>
              if SpeaksEarly(v, Transitioning(t, ok, ok')) then VideoFirst(AfterTransition(v, t, ok, ok').wire)
              else Silent(AfterTransition(v, t, ok, ok'))
  {
    hide AfterUpgradeAccept, AfterRequest, Enable;
    UpgradeAcceptWire(v, ok, ok');
    RequestWire(v, ok);
  }

  lemma RequestWire(v: Video, ok: bool)
    ensures v.wire <= AfterRequest(v, ok).wire
    ensures Silent(v) ==> if ok then VideoFirst(AfterRequest(v, ok).wire) else Silent(AfterRequest(v, ok))
  {
  }

  lemma UpgradeAcceptWire(v: Video, ok: bool, ok': bool)
    ensures v.wire <= AfterUpgradeAccept(v, ok, ok').wire
    ensures Silent(v) ==>
              if ok && v.peerUpgrade then VideoFirst(AfterUpgradeAccept(v, ok, ok').wire)
              else Silent(AfterUpgradeAccept(v, ok, ok'))
  {
  }

  lemma ToggleWire(v: Video, enabled: bool, ok: bool)
    ensures v.wire <= AfterToggle(v, enabled, ok).wire
    ensures Silent(v) ==> Silent(AfterToggle(v, enabled, ok))
  {
  }

  lemma OrientationWire(v: Video, o: int, ok: bool)
    ensures v.wire <= AfterOrientation(v, o, ok).wire
    ensures Silent(v) ==> Silent(AfterOrientation(v, o, ok))
  {
  }

  lemma StanzaWire(v: Video, p: PeerState, ok: bool)
    ensures v.wire <= AfterStanza(v, p, ok).wire
    ensures Silent(v) ==>
              if ok && p.PeerAccept? then VideoFirst(AfterStanza(v, p, ok).wire) else Silent(AfterStanza(v, p, ok))
  {
    hide AfterPeerAccept, AfterPeerEnabled, AfterPeerReject;
    match p
    case PeerAccept => PeerAcceptWire(v, ok);
    case PeerEnabled | PeerReject => PeerFlagsWire(v);
    case PeerUpgradeRequest | PeerOff | PeerOther =>
  }

  lemma PeerAcceptWire(v: Video, ok: bool)
    ensures v.wire <= AfterPeerAccept(v, ok).wire
    ensures Silent(v) ==> if ok then VideoFirst(AfterPeerAccept(v, ok).wire) else Silent(AfterPeerAccept(v, ok))
  {
  }

  lemma PeerFlagsWire(v: Video)
    ensures AfterPeerEnabled(v).wire == v.wire == AfterPeerReject(v).wire
    ensures Silent(v) ==> Silent(AfterPeerEnabled(v)) && Silent(AfterPeerReject(v))
  {
  }

  lemma ReleaseWire(v: Video, toggleOk: bool, orientOk: bool)
    ensures v.wire <= AfterRelease(v, toggleOk, orientOk).wire
  {
    hide AfterToggle, AfterOrientation;
    var v1 := v.(acceptSent := true, parkedEnable := None, parkedOrientation := None);
    var v2 := v1;
    if v.parkedEnable.Some? {
      ToggleWire(v1, v.parkedEnable.value, toggleOk);
      v2 := AfterToggle(v1, v.parkedEnable.value, toggleOk);
    }
    if v.parkedOrientation.Some? {
      OrientationWire(v2, v.parkedOrientation.value, orientOk);
    }
  }

  lemma AcceptWire(v: Video, ok: bool, toggleOk: bool, orientOk: bool)
    ensures v.wire <= AfterAccept(v, ok, toggleOk, orientOk).wire
    ensures Silent(v) ==>
              if ok && v.acceptPending then
                AfterAccept(v, ok, toggleOk, orientOk).wire != []
                && AfterAccept(v, ok, toggleOk, orientOk).wire[0].CallAccept?
              else Silent(AfterAccept(v, ok, toggleOk, orientOk))
  {
    hide AfterRelease;
    if v.acceptPending {
      var v' := v.(acceptPending := false).Say(CallAccept(v.localVideo || v.remoteVideo), ok);
      ReleaseWire(v', toggleOk, orientOk);
    }
  }

  lemma WireGrows(v: Video, ev: Event)
    ensures v.wire <= Step(v, ev).wire
  {
    hide AfterTransition, AfterToggle, AfterOrientation, AfterStanza, AfterAccept, AfterFrame;
    match ev
    case Transitioning(t, ok, ok') => TransitionWire(v, t, ok, ok');
    case Toggling(enabled, ok) => ToggleWire(v, enabled, ok);
    case Orienting(o, ok) => OrientationWire(v, o, ok);
    case PeerStanza(p, ok) => StanzaWire(v, p, ok);
    case Accepting(ok, toggleOk, orientOk) => AcceptWire(v, ok, toggleOk, orientOk);
    case _ =>
  }

  /** What breaks the silence. */
  lemma SilenceBreaks(v: Video, ev: Event)
    requires Silent(v) && !ev.JoiningGroup?
    ensures SpeaksEarly(v, ev) ==> VideoFirst(Step(v, ev).wire)
    ensures Accepts(v, ev) ==> Step(v, ev).wire != [] && Step(v, ev).wire[0].CallAccept?
    ensures !SpeaksEarly(v, ev) && !Accepts(v, ev) ==> Silent(Step(v, ev))
  {
    hide AfterTransition, AfterToggle, AfterOrientation, AfterStanza, AfterAccept, AfterFrame;
    match ev
    case Transitioning(t, ok, ok') => TransitionWire(v, t, ok, ok');
    case Toggling(enabled, ok) => ToggleWire(v, enabled, ok);
    case Orienting(o, ok) => OrientationWire(v, o, ok);
    case PeerStanza(p, ok) => StanzaWire(v, p, ok);
    case Accepting(ok, toggleOk, orientOk) => AcceptWire(v, ok, toggleOk, orientOk);
    case _ =>
  }

  /** The n-th event of a run speaks early, no accept having gone out before it. */
  ghost predicate SpeaksAt(start: Video, evs: seq<Event>, n: nat)
    requires n < |evs|
  {
    && SpeaksEarly(Run(start, evs[..n]), evs[n])
    && forall m :: 0 <= m < n ==> !Accepts(Run(start, evs[..m]), evs[m])
  }

  ghost predicate AcceptedBefore(start: Video, evs: seq<Event>) {
    exists m :: 0 <= m < |evs| && Accepts(Run(start, evs[..m]), evs[m])
  }

  ghost predicate Speaks(start: Video, evs: seq<Event>) {
    exists n :: 0 <= n < |evs| && SpeaksAt(start, evs, n)
  }

  /** One event more. */
  lemma SpeaksSnoc(start: Video, front: seq<Event>, ev: Event)
    ensures Speaks(start, front + [ev]) <==>
            Speaks(start, front) || (!AcceptedBefore(start, front) && SpeaksEarly(Run(start, front), ev))
    ensures AcceptedBefore(start, front + [ev]) <==> AcceptedBefore(start, front) || Accepts(Run(start, front), ev)
  {
    hide Run, SpeaksEarly, Accepts;
    var all := front + [ev];
    assert all[..|front|] == front && all[|front|] == ev;
    assert forall m :: 0 <= m < |front| ==> all[..m] == front[..m] && all[m] == front[m];
    assert forall n :: 0 <= n < |front| ==> (SpeaksAt(start, all, n) <==> SpeaksAt(start, front, n));
    if Speaks(start, front) {
      var n :| 0 <= n < |front| && SpeaksAt(start, front, n);
      assert SpeaksAt(start, all, n);
    }
    if !AcceptedBefore(start, front) && SpeaksEarly(Run(start, front), ev) {
      assert SpeaksAt(start, all, |front|);
    }
    if AcceptedBefore(start, front) {
      var m :| 0 <= m < |front| && Accepts(Run(start, front[..m]), front[m]);
      assert Accepts(Run(start, all[..m]), all[m]);
    }
    if Accepts(Run(start, front), ev) {
      assert Accepts(Run(start, all[..|front|]), all[|front|]);
    }
  }

  /** Over any run of a direct incoming call, with any sends failing: a video stanza stands on the
      wire before the first accept exactly when some event before it was a successful upgrade
      request or stop, the first stanza of a pending upgrade accepted, or an announced peer
      accept.  Toggles and orientation changes never do it. */
  lemma {:induction false} VideoFirstExactly(video: bool, evs: seq<Event>)
    requires forall i :: 0 <= i < |evs| ==> !evs[i].JoiningGroup?
    ensures var start := Opened(true, false, video);
            && (VideoFirst(Run(start, evs).wire) <==> Speaks(start, evs))
            && (Run(start, evs).wire == [] <==> !Speaks(start, evs) && !AcceptedBefore(start, evs))
            && (Run(start, evs).wire == [] ==> Silent(Run(start, evs)))
    decreases |evs|
  {
    var start := Opened(true, false, video);
    if evs != [] {
      var front, ev := evs[..|evs| - 1], evs[|evs| - 1];
      assert front + [ev] == evs && !ev.JoiningGroup?;
      VideoFirstExactly(video, front);
      SpeaksSnoc(start, front, ev);
      var v := Run(start, front);
      WireGrows(v, ev);
      if v.wire == [] {
        SilenceBreaks(v, ev);
      }
      hide Step, Speaks, AcceptedBefore, Silent, SpeaksEarly, Accepts;
    }
  }

  /** In particular an upgrade request is not parked: sent at any time before the accept, on a call
      that has not ended, it precedes it. */
  lemma UpgradeRequestIsNotParked(video: bool, evs: seq<Event>, ok': bool)
    requires forall i :: 0 <= i < |evs| ==> !evs[i].JoiningGroup?
    requires var start := Opened(true, false, video); !AcceptedBefore(start, evs) && !Run(start, evs).ended
    ensures VideoFirst(Run(Opened(true, false, video), evs + [Transitioning(RequestUpgrade, true, ok')]).wire)
  {
    var start, request := Opened(true, false, video), Transitioning(RequestUpgrade, true, ok');
    SpeaksSnoc(start, evs, request);
    assert SpeaksEarly(Run(start, evs), request);
    hide Run, AcceptedBefore, Speaks;
    VideoFirstExactly(video, evs + [request]);
  }
}
