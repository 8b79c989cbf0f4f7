/**
  Video negotiation of one call: the engine's flags, the separate sender object that gates
  outbound frames, the stanzas that reach the wire, and the camera controls parked until the
  deferred accept has gone out.  A send is an input that says whether it succeeded.
 */
module VideoNegotiation {
  import opened Common

  /** One encoded access unit: whether it holds an IDR, and how many protected packets it yields. */
  datatype AccessUnit = AccessUnit(idr: bool, packets: nat)

  datatype Gate = Gate(active: bool, sendGated: bool, keyframeRequired: bool)

  function Enable(g: Gate, sendGated: bool): Gate {
    Gate(true, sendGated, g.keyframeRequired || !g.active || (g.sendGated && !sendGated))
  }

  const OFF := Gate(false, false, true)

  /** Whether an access unit comes out protected. */
  predicate Emits(g: Gate, au: AccessUnit) {
    g.active && !g.sendGated && (g.keyframeRequired ==> au.idr) && au.packets > 0
  }

  function AfterFrame(g: Gate, au: AccessUnit): Gate {
    if Emits(g, au) && au.idr then g.(keyframeRequired := false) else g
  }

  class VideoSender {
    var active: bool
    var sendGated: bool
    var keyframeRequired: bool
    var orientation: nat

    ghost function View(): Gate reads this { Gate(active, sendGated, keyframeRequired) }

    constructor (active: bool, sendGated: bool)
      ensures View() == Gate(active, sendGated, true) && orientation == 0
    {
      this.active, this.sendGated, keyframeRequired, orientation := active, sendGated, true, 0;
    }

    method SetEnabled(gated: bool)
      modifies this
      ensures View() == Enable(old(View()), gated) && orientation == old(orientation)
    {
      var needsRecovery := !active || (sendGated && !gated);
      active := true;
      sendGated := gated;
      keyframeRequired := keyframeRequired || needsRecovery;
    }

    method SetDisabled()
      modifies this
      ensures View() == OFF && orientation == old(orientation)
    {
      active := false;
      sendGated := false;
      keyframeRequired := true;
    }

    method RequestKeyframe()
      modifies this
      ensures View() == old(View()).(keyframeRequired := true) && orientation == old(orientation)
    {
      keyframeRequired := true;
    }

    method SetOrientation(o: nat)
      modifies this
      ensures View() == old(View()) && orientation == o % 4
    {
      orientation := o % 4;
    }

    /** How many packets of an access unit go out. */
    method ProtectAccessUnit(au: AccessUnit) returns (packets: nat)
      modifies this
      ensures packets == (if Emits(old(View()), au) then au.packets else 0)
      ensures View() == AfterFrame(old(View()), au) && orientation == old(orientation)
    {
      if !active || sendGated {
        return 0;
      }
      if keyframeRequired && !au.idr {
        return 0;
      }
      packets := au.packets;
      if packets > 0 && au.idr {
        keyframeRequired := false;
      }
    }
  }

  // ----- runs of the sender alone -----

  datatype SenderOp = Enabling(gated: bool) | Disabling | Requesting | Sending(au: AccessUnit)

  function SenderStep(g: Gate, op: SenderOp): Gate {
    match op
    case Enabling(gated) => Enable(g, gated)
    case Disabling => OFF
    case Requesting => g.(keyframeRequired := true)
    case Sending(au) => AfterFrame(g, au)
  }

  function At(g: Gate, ops: seq<SenderOp>, i: nat): Gate
    requires i <= |ops|
  {
    if i == 0 then g else SenderStep(At(g, ops, i - 1), ops[i - 1])
  }

  /** The i-th operation protects an access unit. */
  predicate EmitsAt(g: Gate, ops: seq<SenderOp>, i: nat)
    requires i < |ops|
  {
    ops[i].Sending? && Emits(At(g, ops, i), ops[i].au)
  }

  /** An activation, a gate opening, a stop or a keyframe request. */
  predicate Restarts(g: Gate, op: SenderOp) {
    match op
    case Enabling(gated) => !g.active || (g.sendGated && !gated)
    case Disabling => true
    case Requesting => true
    case Sending(_) => false
  }

  lemma {:induction false} KeyframeOwed(g: Gate, ops: seq<SenderOp>, i: nat, j: nat)
    requires i < j <= |ops| && Restarts(At(g, ops, i), ops[i])
    requires forall k :: i < k < j ==> !EmitsAt(g, ops, k)
    ensures At(g, ops, j).keyframeRequired
  {
    if i + 1 < j {
      KeyframeOwed(g, ops, i, j - 1);
      assert !EmitsAt(g, ops, j - 1);
    }
  }

  /** Over any run: nothing is protected while inactive or gated, and the first access unit
      protected after an activation, a gate opening or a keyframe request is an IDR. */
  lemma FirstFrameIsIdr(g: Gate, ops: seq<SenderOp>, i: nat, j: nat)
    requires i < j < |ops| && Restarts(At(g, ops, i), ops[i]) && EmitsAt(g, ops, j)
    requires forall k :: i < k < j ==> !EmitsAt(g, ops, k)
    ensures ops[j].au.idr && At(g, ops, j).active && !At(g, ops, j).sendGated
  {
    KeyframeOwed(g, ops, i, j);
  }

  // ----- the engine's call -----

  /** What reaches the peer's signaling. */
  datatype Stanza =
    | CallAccept(video: bool)
    | CameraToggle(enabled: bool)
    | CameraOrientation(orientation: nat)
    | UpgradeRequest
    | UpgradeAccept
    | VideoStopped
    | VideoAnnounced

  /** A stanza of the camera toggle or the orientation control. */
  predicate IsCamera(s: Stanza) {
    s.CameraToggle? || s.CameraOrientation?
  }

  /** Inbound video states. */
  datatype PeerState = PeerUpgradeRequest | PeerEnabled | PeerOff | PeerAccept | PeerReject | PeerOther

  datatype Transition = RequestUpgrade | AcceptUpgrade | StopVideo

  datatype Video = Video(
    ended: bool,
    group: bool,
    incoming: bool,
    localVideo: bool,
    remoteVideo: bool,
    videoGate: bool,
    peerUpgrade: bool,
    acceptPending: bool,
    acceptSent: bool,
    parkedEnable: Option<bool>,
    parkedOrientation: Option<nat>,
    sender: Option<Gate>,
    wire: seq<Stanza>)
  {
    /** Camera controls wait while the deferred accept of an incoming direct call is not out. */
    predicate Parks() {
      !group && incoming && !acceptSent
    }

    function Say(s: Stanza, ok: bool): Video {
      if ok then this.(wire := wire + [s]) else this
    }

    /** Camera on (perhaps waiting for the peer), for the flags and the sender alike. */
    function On(gated: bool): Video {
      this.(localVideo := true, videoGate := gated,
            sender := if sender.Some? then Some(Enable(sender.value, gated)) else None)
    }

    function Off(): Video {
      this.(localVideo := false, videoGate := false, sender := if sender.Some? then Some(OFF) else None)
    }
  }

  /** Flags and sender agree, and a gate is only up while local video is. */
  ghost predicate Synced(v: Video) {
    && (v.videoGate ==> v.localVideo)
    && (v.sender.Some? ==> v.sender.value.active == v.localVideo && v.sender.value.sendGated == v.videoGate)
  }

  // The net effect of each operation.  A failed send leaves the camera off.

  function AfterRequest(v: Video, ok: bool): Video {
    if ok then v.On(true).Say(UpgradeRequest, true) else v.Off()
  }

  function AfterUpgradeAccept(v: Video, ok: bool, ok': bool): Video {
    if !v.peerUpgrade then v
    else if v.localVideo then v.(peerUpgrade := !ok).Say(UpgradeAccept, ok)
    else v.(peerUpgrade := !(ok && ok')).Say(VideoStopped, ok).Say(UpgradeAccept, ok && ok')
  }

  function AfterTransition(v: Video, t: Transition, ok: bool, ok': bool): Video {
    if v.ended then v
    else match t
      case RequestUpgrade => AfterRequest(v, ok)
      case AcceptUpgrade => AfterUpgradeAccept(v, ok, ok')
      case StopVideo => v.Off().Say(VideoStopped, ok)
  }

  /** Whether a transition reports an error. */
  predicate TransitionFails(v: Video, t: Transition, ok: bool, ok': bool) {
    v.ended ||
    match t
    case RequestUpgrade => !ok
    case AcceptUpgrade => !v.peerUpgrade || !ok || (!v.localVideo && !ok')
    case StopVideo => !ok
  }

  function AfterSwitch(v: Video, enabled: bool, ok: bool): Video {
    (if enabled && ok then v.On(false) else v.Off()).Say(CameraToggle(enabled), ok)
  }

  function AfterToggle(v: Video, enabled: bool, ok: bool): Video {
    if v.ended then v
    else if v.Parks() then v.(parkedEnable := Some(enabled))
    else AfterSwitch(v, enabled, ok)
  }

  function AfterOrientation(v: Video, o: int, ok: bool): Video {
    if o < 0 || o > 3 || v.ended then v
    else if v.Parks() then v.(parkedOrientation := Some(o))
    else if !v.localVideo then v
    else v.Say(CameraOrientation(o), ok)
  }

  function AfterPeerAccept(v: Video, ok: bool): Video {
    if ok then v.On(false).Say(VideoAnnounced, true) else v.Off()
  }

  /** The peer's own video opens the gate. */
  function AfterPeerEnabled(v: Video): Video {
    var v' := v.(remoteVideo := true);
    if v.localVideo && v.videoGate then v'.On(false) else v'
  }

  /** A declined upgrade turns a waiting camera off. */
  function AfterPeerReject(v: Video): Video {
    var v' := v.(peerUpgrade := false);
    if v.videoGate then v'.Off() else v'
  }

  function AfterStanza(v: Video, p: PeerState, ok: bool): Video {
    match p
    case PeerUpgradeRequest => v.(peerUpgrade := true)
    case PeerEnabled => AfterPeerEnabled(v)
    case PeerOff => v.(remoteVideo := false)
    case PeerAccept => AfterPeerAccept(v, ok)
    case PeerReject => AfterPeerReject(v)
    case PeerOther => v
  }

  /** With the accept out, the parked controls go in the order toggle, orientation. */
  function AfterRelease(v: Video, toggleOk: bool, orientOk: bool): Video {
    var v1 := v.(acceptSent := true, parkedEnable := None, parkedOrientation := None);
    var v2 := if v.parkedEnable.Some? then AfterToggle(v1, v.parkedEnable.value, toggleOk) else v1;
    if v.parkedOrientation.Some? then AfterOrientation(v2, v.parkedOrientation.value, orientOk) else v2
  }

  /** The deferred accept goes out once. */
  function AfterAccept(v: Video, ok: bool, toggleOk: bool, orientOk: bool): Video {
    if !v.acceptPending then v
    else
      var v' := v.(acceptPending := false).Say(CallAccept(v.localVideo || v.remoteVideo), ok);
      if ok then AfterRelease(v', toggleOk, orientOk) else v'
  }

  class EngineCall {
    var ended: bool
    var group: bool
    const incoming: bool
    var localVideo: bool
    var remoteVideo: bool
    var videoGate: bool
    var peerVideoUpgrade: bool
    var acceptPending: bool
    var acceptSent: bool
    var pendingVideoEnable: Option<bool>
    var pendingVideoOrientation: Option<nat>
    var videoTx: VideoSender?
    var wire: seq<Stanza>

    ghost function View(): Video
      reads this, videoTx
    {
      Video(ended, group, incoming, localVideo, remoteVideo, videoGate, peerVideoUpgrade, acceptPending, acceptSent,
            pendingVideoEnable, pendingVideoOrientation, if videoTx == null then None else Some(videoTx.View()), wire)
    }

    /** A call as an offer, placed or received, leaves it. */
    constructor (incoming: bool, group: bool, video: bool)
      ensures View() == Opened(incoming, group, video) && videoTx == null
    {
      this.incoming, this.group, localVideo, remoteVideo := incoming, group, video, video;
      ended, videoGate, peerVideoUpgrade, acceptPending, acceptSent := false, false, false, false, false;
      pendingVideoEnable, pendingVideoOrientation, videoTx, wire := None, None, null, [];
    }

    method Transmit(s: Stanza, ok: bool)
      modifies this`wire
      ensures View() == old(View()).Say(s, ok)
    {
      if ok {
        wire := wire + [s];
      }
    }

    method CameraOn(gated: bool)
      modifies this`localVideo, this`videoGate, videoTx
      ensures View() == old(View()).On(gated)
    {
      localVideo, videoGate := true, gated;
      if videoTx != null { videoTx.SetEnabled(gated); }
    }

    method CameraOff()
      modifies this`localVideo, this`videoGate, videoTx
      ensures View() == old(View()).Off()
    {
      localVideo, videoGate := false, false;
      if videoTx != null { videoTx.SetDisabled(); }
    }

    method RequestVideoUpgrade(ok: bool) returns (failed: bool)
      modifies this`localVideo, this`videoGate, this`wire, videoTx
      ensures View() == AfterRequest(old(View()), ok) && failed == !ok
    {
      CameraOn(true);
      Transmit(UpgradeRequest, ok);
      failed := !ok;
      if failed {
        CameraOff();
      }
    }

    /** A peer's upgrade request is answered; with the own camera off, that is announced first. */
    method AcceptVideoUpgrade(ok: bool, ok': bool) returns (failed: bool)
      modifies this`peerVideoUpgrade, this`wire
      ensures View() == AfterUpgradeAccept(old(View()), ok, ok')
      ensures failed == !(old(peerVideoUpgrade) && ok && (localVideo || ok'))
    {
      if !peerVideoUpgrade {
        return true;
      }
      peerVideoUpgrade := false;
      failed := false;
      if !localVideo {
        Transmit(VideoStopped, ok);
        failed := !ok;
      }
      if !failed {
        var sent := if localVideo then ok else ok';
        Transmit(UpgradeAccept, sent);
        failed := !sent;
      }
      if failed {
        peerVideoUpgrade := true;
      }
    }

    method TransitionVideo(t: Transition, ok: bool, ok': bool) returns (failed: bool)
      modifies this`localVideo, this`videoGate, this`peerVideoUpgrade, this`wire, videoTx
      ensures View() == AfterTransition(old(View()), t, ok, ok')
      ensures failed == TransitionFails(old(View()), t, ok, ok')
    {
      hide AfterRequest, AfterUpgradeAccept;
      if ended {
        return true;
      }
      match t
      case RequestUpgrade => failed := RequestVideoUpgrade(ok);
      case AcceptUpgrade => failed := AcceptVideoUpgrade(ok, ok');
      case StopVideo =>
        CameraOff();
        Transmit(VideoStopped, ok);
        failed := !ok;
    }

    /** The camera toggle proper, once it need not wait; a failed switch-on is taken back. */
    method SwitchCamera(enabled: bool, ok: bool) returns (failed: bool)
      modifies this`localVideo, this`videoGate, this`wire, videoTx
      ensures View() == AfterSwitch(old(View()), enabled, ok) && failed == !ok
    {
      if enabled { CameraOn(false); } else { CameraOff(); }
      Transmit(CameraToggle(enabled), ok);
      failed := !ok;
      if failed && enabled {
        CameraOff();
      }
    }

    method SetVideoEnabled(enabled: bool, ok: bool) returns (failed: bool)
      modifies this`localVideo, this`videoGate, this`pendingVideoEnable, this`wire, videoTx
      ensures View() == AfterToggle(old(View()), enabled, ok)
      ensures failed <==> ended || (!old(View()).Parks() && !ok)
    {
      hide AfterSwitch;
      if ended {
        return true;
      }
      if !group && incoming && !acceptSent {
        pendingVideoEnable := Some(enabled);
        return false;
      }
      failed := SwitchCamera(enabled, ok);
    }

    method SetVideoOrientation(o: int, ok: bool) returns (failed: bool)
      modifies this`pendingVideoOrientation, this`wire, videoTx
      ensures View() == AfterOrientation(old(View()), o, ok)
      ensures failed <==> o < 0 || o > 3 || ended || (!old(View()).Parks() && (!localVideo || !ok))
      ensures videoTx != null ==>
                videoTx.orientation ==
                if 0 <= o <= 3 && !ended && !old(View()).Parks() && localVideo then o else old(videoTx.orientation)
    {
      if o < 0 || o > 3 || ended {
        return true;
      }
      if !group && incoming && !acceptSent {
        pendingVideoOrientation := Some(o);
        return false;
      }
      if !localVideo {
        return true;
      }
      if videoTx != null { videoTx.SetOrientation(o); }
      Transmit(CameraOrientation(o), ok);
      failed := !ok;
    }

    /** The peer took our upgrade: the camera is announced, and is off if that cannot be sent. */
    method AnnounceCamera(ok: bool)
      modifies this`localVideo, this`videoGate, this`wire, videoTx
      ensures View() == AfterPeerAccept(old(View()), ok)
    {
      localVideo, videoGate := true, false;
      Transmit(VideoAnnounced, ok);
      if ok { CameraOn(false); } else { CameraOff(); }
    }

    method OnPeerEnabled()
      modifies this`localVideo, this`remoteVideo, this`videoGate, videoTx
      ensures View() == AfterPeerEnabled(old(View()))
    {
      hide Video.On;
      remoteVideo := true;
      if localVideo && videoGate {
        CameraOn(false);
      }
    }

    method OnPeerReject()
      modifies this`localVideo, this`videoGate, this`peerVideoUpgrade, videoTx
      ensures View() == AfterPeerReject(old(View()))
    {
      hide Video.Off;
      peerVideoUpgrade := false;
      if videoGate {
        CameraOff();
      }
    }

    method OnVideoStanza(p: PeerState, ok: bool)
      modifies this`localVideo, this`remoteVideo, this`videoGate, this`peerVideoUpgrade, this`wire, videoTx
      ensures View() == AfterStanza(old(View()), p, ok)
    {
      hide AfterPeerAccept, AfterPeerEnabled, AfterPeerReject;
      match p
      case PeerUpgradeRequest => peerVideoUpgrade := true;
      case PeerEnabled => OnPeerEnabled();
      case PeerOff => remoteVideo := false;
      case PeerAccept => AnnounceCamera(ok);
      case PeerReject => OnPeerReject();
      case PeerOther =>
    }

    /** The parked toggle, then the parked orientation. */
    method ReleaseParked(toggleOk: bool, orientOk: bool)
      modifies this, videoTx
      ensures View() == AfterRelease(old(View()), toggleOk, orientOk) && videoTx == old(videoTx)
    {
      hide AfterToggle, AfterOrientation;
      var pending, pendingOrientation := pendingVideoEnable, pendingVideoOrientation;
      acceptSent, pendingVideoEnable, pendingVideoOrientation := true, None, None;
      if pending.Some? {
        var _ := SetVideoEnabled(pending.value, toggleOk);
      }
      if pendingOrientation.Some? {
        var _ := SetVideoOrientation(pendingOrientation.value, orientOk);
      }
    }

    method SendAccept(ok: bool, toggleOk: bool, orientOk: bool)
      modifies this, videoTx
      ensures View() == AfterAccept(old(View()), ok, toggleOk, orientOk) && videoTx == old(videoTx)
    {
      hide AfterRelease;
      if !acceptPending {
        return;
      }
      var isVideo := localVideo || remoteVideo;
      acceptPending := false;
      Transmit(CallAccept(isVideo), ok);
      if ok {
        ReleaseParked(toggleOk, orientOk);
      }
    }

    /** Media is up: a sender is made to match the call's flags. */
    method PublishSender()
      modifies this`videoTx
      ensures View() == old(View()).(sender := Some(Gate(localVideo, videoGate, true)))
      ensures fresh(videoTx)
    {
      videoTx := new VideoSender(localVideo, videoGate);
    }
  }

  function Opened(incoming: bool, group: bool, video: bool): Video {
    Video(false, group, incoming, video, video, false, false, false, false, None, None, None, [])
  }

  // ----- runs of the call -----

  datatype Event =
    | Transitioning(t: Transition, ok: bool, ok': bool)
    | Toggling(enabled: bool, ok: bool)
    | Orienting(orientation: int, ok: bool)
    | PeerStanza(state: PeerState, ok: bool)
    | Answering
    | Accepting(ok: bool, toggleOk: bool, orientOk: bool)
    | MediaUp
    | MediaDown
    | Frame(au: AccessUnit)
    | KeyframeRequest
    | JoiningGroup
    | Ending

  function Step(v: Video, ev: Event): Video {
    match ev
    case Transitioning(t, ok, ok') => AfterTransition(v, t, ok, ok')
    case Toggling(enabled, ok) => AfterToggle(v, enabled, ok)
    case Orienting(o, ok) => AfterOrientation(v, o, ok)
    case PeerStanza(p, ok) => AfterStanza(v, p, ok)
    case Answering => v.(acceptPending := true)
    case Accepting(ok, toggleOk, orientOk) => AfterAccept(v, ok, toggleOk, orientOk)
    case MediaUp => v.(sender := Some(Gate(v.localVideo, v.videoGate, true)))
    case MediaDown => v.(sender := None)
    case Frame(au) => if v.sender.Some? then v.(sender := Some(AfterFrame(v.sender.value, au))) else v
    case KeyframeRequest => if v.sender.Some? then v.(sender := Some(v.sender.value.(keyframeRequired := true))) else v
    case JoiningGroup => v.(group := true)
    case Ending => v.(ended := true)
  }

  function Run(v: Video, evs: seq<Event>): Video {
    if evs == [] then v else Step(Run(v, evs[..|evs| - 1]), evs[|evs| - 1])
  }

  /** A sent accept is on the wire, and on a direct incoming call it comes before any camera stanza. */
  ghost predicate AcceptLeads(wire: seq<Stanza>, acceptSent: bool, deferred: bool) {
    && (acceptSent ==> exists i :: 0 <= i < |wire| && wire[i].CallAccept?)
    && (deferred ==>
          forall i :: 0 <= i < |wire| && IsCamera(wire[i]) ==> exists j :: 0 <= j < i && wire[j].CallAccept?)
  }

  ghost predicate AcceptFirst(v: Video) {
    AcceptLeads(v.wire, v.acceptSent, v.incoming && !v.group)
  }

  lemma SayKeepsOrder(v: Video, s: Stanza, ok: bool)
    requires AcceptFirst(v) && (IsCamera(s) ==> !v.Parks())
    ensures AcceptFirst(v.Say(s, ok))
    ensures s.CallAccept? && ok ==> AcceptFirst(v.Say(s, ok).(acceptSent := true))
  {
    var w := v.Say(s, ok);
    if ok {
      assert w.wire[|v.wire|] == s;
      assert forall i :: 0 <= i < |v.wire| ==> w.wire[i] == v.wire[i];
      if v.acceptSent {
        var i :| 0 <= i < |v.wire| && v.wire[i].CallAccept?;
        assert w.wire[i].CallAccept?;
      }
      forall i | v.incoming && !v.group && 0 <= i < |w.wire| && IsCamera(w.wire[i])
        ensures exists j :: 0 <= j < i && w.wire[j].CallAccept?
      {
        if i < |v.wire| {
          var j :| 0 <= j < i && v.wire[j].CallAccept?;
          assert w.wire[j].CallAccept?;
        } else {
          var j :| 0 <= j < |v.wire| && v.wire[j].CallAccept?;
          assert w.wire[j].CallAccept?;
        }
      }
    }
  }

  lemma TransitionKeepsOrder(v: Video, t: Transition, ok: bool, ok': bool)
    requires AcceptFirst(v)
    ensures AcceptFirst(AfterTransition(v, t, ok, ok'))
  {
    hide AcceptLeads;
    match t
    case RequestUpgrade => SayKeepsOrder(v.On(true), UpgradeRequest, ok);
    case AcceptUpgrade => UpgradeAcceptKeepsOrder(v, ok, ok');
    case StopVideo => SayKeepsOrder(v.Off(), VideoStopped, ok);
  }

  lemma UpgradeAcceptKeepsOrder(v: Video, ok: bool, ok': bool)
    requires AcceptFirst(v)
    ensures AcceptFirst(AfterUpgradeAccept(v, ok, ok'))
  {
    hide AcceptLeads;
    if v.localVideo {
      SayKeepsOrder(v.(peerUpgrade := !ok), UpgradeAccept, ok);
    } else {
      var u := v.(peerUpgrade := !(ok && ok'));
      SayKeepsOrder(u, VideoStopped, ok);
      SayKeepsOrder(u.Say(VideoStopped, ok), UpgradeAccept, ok && ok');
    }
  }

  lemma ToggleKeepsOrder(v: Video, enabled: bool, ok: bool)
    requires AcceptFirst(v)
    ensures AcceptFirst(AfterToggle(v, enabled, ok))
  {
    hide AcceptLeads;
    if !v.ended && !v.Parks() {
      SayKeepsOrder(if enabled && ok then v.On(false) else v.Off(), CameraToggle(enabled), ok);
    }
  }

  lemma OrientKeepsOrder(v: Video, o: int, ok: bool)
    requires AcceptFirst(v)
    ensures AcceptFirst(AfterOrientation(v, o, ok))
  {
    if 0 <= o <= 3 && !v.ended && !v.Parks() && v.localVideo {
      SayKeepsOrder(v, CameraOrientation(o), ok);
    }
  }

  lemma StanzaKeepsOrder(v: Video, p: PeerState, ok: bool)
    requires AcceptFirst(v)
    ensures AcceptFirst(AfterStanza(v, p, ok))
  {
    hide AcceptLeads;
    SayKeepsOrder(v.On(false), VideoAnnounced, ok);
  }

  lemma ReleaseKeepsOrder(v: Video, toggleOk: bool, orientOk: bool)
    requires AcceptFirst(v.(acceptSent := true))
    ensures AcceptFirst(AfterRelease(v, toggleOk, orientOk))
  {
    hide AfterToggle, AfterOrientation;
    var v1 := v.(acceptSent := true, parkedEnable := None, parkedOrientation := None);
    assert AcceptFirst(v1);
    hide AcceptFirst;
    if v.parkedEnable.Some? {
      ToggleKeepsOrder(v1, v.parkedEnable.value, toggleOk);
    }
    if v.parkedOrientation.Some? {
      OrientKeepsOrder(if v.parkedEnable.Some? then AfterToggle(v1, v.parkedEnable.value, toggleOk) else v1,
                       v.parkedOrientation.value, orientOk);
    }
  }

  lemma AcceptKeepsOrder(v: Video, ok: bool, toggleOk: bool, orientOk: bool)
    requires AcceptFirst(v)
    ensures AcceptFirst(AfterAccept(v, ok, toggleOk, orientOk))
  {
    hide AfterRelease;
    if v.acceptPending {
      var stanza := CallAccept(v.localVideo || v.remoteVideo);
      var v0 := v.(acceptPending := false);
      SayKeepsOrder(v0, stanza, ok);
      if ok {
        ReleaseKeepsOrder(v0.Say(stanza, true), toggleOk, orientOk);
      }
    }
  }

  lemma StepKeepsOrder(v: Video, ev: Event)
    requires AcceptFirst(v)
    ensures AcceptFirst(Step(v, ev))
  {
    hide AfterTransition, AfterToggle, AfterOrientation, AfterStanza, AfterAccept, AfterFrame;
    match ev
    case JoiningGroup =>
    case Transitioning(t, ok, ok') => TransitionKeepsOrder(v, t, ok, ok');
    case Toggling(enabled, ok) => ToggleKeepsOrder(v, enabled, ok);
    case Orienting(o, ok) => OrientKeepsOrder(v, o, ok);
    case PeerStanza(p, ok) => StanzaKeepsOrder(v, p, ok);
    case Accepting(ok, toggleOk, orientOk) => AcceptKeepsOrder(v, ok, toggleOk, orientOk);
    case _ =>
  }

  lemma TransitionKeepsSynced(v: Video, t: Transition, ok: bool, ok': bool)
    requires Synced(v)
    ensures Synced(AfterTransition(v, t, ok, ok'))
  {
  }

  lemma ToggleKeepsSynced(v: Video, enabled: bool, ok: bool)
    requires Synced(v)
    ensures Synced(AfterToggle(v, enabled, ok))
  {
  }

  lemma OrientKeepsSynced(v: Video, o: int, ok: bool)
    requires Synced(v)
    ensures Synced(AfterOrientation(v, o, ok))
  {
  }

  lemma StanzaKeepsSynced(v: Video, p: PeerState, ok: bool)
    requires Synced(v)
    ensures Synced(AfterStanza(v, p, ok))
  {
  }

  lemma AcceptKeepsSynced(v: Video, ok: bool, toggleOk: bool, orientOk: bool)
    requires Synced(v)
    ensures Synced(AfterAccept(v, ok, toggleOk, orientOk))
  {
    hide AfterToggle, AfterOrientation;
    if v.acceptPending && ok {
      var v0 := v.(acceptPending := false).Say(CallAccept(v.localVideo || v.remoteVideo), ok);
      var v1 := v0.(acceptSent := true, parkedEnable := None, parkedOrientation := None);
      assert Synced(v1);
      hide Synced;
      var v2 := if v.parkedEnable.Some? then AfterToggle(v1, v.parkedEnable.value, toggleOk) else v1;
      if v.parkedEnable.Some? {
        ToggleKeepsSynced(v1, v.parkedEnable.value, toggleOk);
      }
      if v.parkedOrientation.Some? {
        OrientKeepsSynced(v2, v.parkedOrientation.value, orientOk);
      }
    }
  }

  lemma StepKeepsSynced(v: Video, ev: Event)
    requires Synced(v)
    ensures Synced(Step(v, ev))
  {
    hide AfterTransition, AfterToggle, AfterOrientation, AfterStanza, AfterAccept;
    match ev
    case Transitioning(t, ok, ok') => TransitionKeepsSynced(v, t, ok, ok');
    case Toggling(enabled, ok) => ToggleKeepsSynced(v, enabled, ok);
    case Orienting(o, ok) => OrientKeepsSynced(v, o, ok);
    case PeerStanza(p, ok) => StanzaKeepsSynced(v, p, ok);
    case Accepting(ok, toggleOk, orientOk) => AcceptKeepsSynced(v, ok, toggleOk, orientOk);
    case _ =>
  }

  /** Over any run of a call, with any sends failing: the sender matches the flags, a gate implies
      local video, a frame that gets out does so with local video on and no gate up, and on a
      direct incoming call no camera stanza precedes the accept on the wire. */
  lemma {:induction false} VideoIsSafe(incoming: bool, group: bool, video: bool, evs: seq<Event>)
    ensures Synced(Run(Opened(incoming, group, video), evs))
    ensures AcceptFirst(Run(Opened(incoming, group, video), evs))
    ensures var v := Run(Opened(incoming, group, video), evs);
            forall au :: v.sender.Some? && Emits(v.sender.value, au) ==> v.localVideo && !v.videoGate
    decreases |evs|
  {
    if evs != [] {
      var front := evs[..|evs| - 1];
      VideoIsSafe(incoming, group, video, front);
      StepKeepsSynced(Run(Opened(incoming, group, video), front), evs[|evs| - 1]);
      StepKeepsOrder(Run(Opened(incoming, group, video), front), evs[|evs| - 1]);
    }
  }

  /** The accept releases what was parked last: the toggle first, and the orientation only if the
      camera is then on. */
  lemma AcceptReleasesParked(v: Video, enabled: bool, o: nat)
    requires v.Parks() && v.acceptPending && !v.ended
    requires v.parkedEnable == Some(enabled) && v.parkedOrientation == Some(o) && o <= 3
    ensures AfterAccept(v, true, true, true).wire ==
            v.wire + [CallAccept(v.localVideo || v.remoteVideo), CameraToggle(enabled)]
            + if enabled then [CameraOrientation(o)] else []
    ensures AfterAccept(v, true, true, true).localVideo == enabled
  {
  }
}
