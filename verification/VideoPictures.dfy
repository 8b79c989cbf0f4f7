/**
  What the peer sees of a call's camera: which operations open it, which make it wait or turn it
  off, what each says on the wire, and which access units come out of the sender.
 */
module VideoPictures {
  import opened Common
  import opened VideoNegotiation

  /** The camera is on and nothing holds its frames back. */
  predicate Open(v: Video) {
    && v.localVideo && !v.videoGate
    && (v.sender.Some? ==> v.sender.value.active && !v.sender.value.sendGated)
  }

  /** The camera is on and waits for the peer. */
  predicate Waiting(v: Video) {
    && v.localVideo && v.videoGate
    && (v.sender.Some? ==> v.sender.value.active && v.sender.value.sendGated)
  }

  predicate Dark(v: Video) {
    && !v.localVideo && !v.videoGate
    && (v.sender.Some? ==> !v.sender.value.active && !v.sender.value.sendGated)
  }

  /** The sender there is goes on, and owes a keyframe if it owed one, was off, or was gated. */
  predicate Resumed(v: Video, v': Video) {
    && v'.sender.Some? == v.sender.Some?
    && (v.sender.Some? ==>
          var g := v.sender.value;
          v'.sender.value.keyframeRequired == (g.keyframeRequired || !g.active || g.sendGated))
  }

  /** Nothing but the camera, its sender and the wire has changed. */
  predicate OnlyCamera(v: Video, v': Video) {
    v' == v.(localVideo := v'.localVideo, videoGate := v'.videoGate, sender := v'.sender, wire := v'.wire)
    && v'.sender.Some? == v.sender.Some?
  }

  // ----- one operation on any call -----

  /** The peer's accept opens the camera once it has been announced, and turns it off if it cannot
      be. */
  lemma PeerAcceptOpens(v: Video, ok: bool)
    ensures var v' := Step(v, PeerStanza(PeerAccept, ok));
            && OnlyCamera(v, v')
            && (if ok then Open(v') && Resumed(v, v') else Dark(v'))
            && v'.wire == v.wire + if ok then [VideoAnnounced] else []
  {
  }

  /** The peer's own video opens a waiting camera and no other. */
  lemma PeerEnabledOpens(v: Video, ok: bool)
    ensures var v' := Step(v, PeerStanza(PeerEnabled, ok));
            && v'.remoteVideo && v'.wire == v.wire
            && (v.localVideo && v.videoGate ==> OnlyCamera(v.(remoteVideo := true), v') && Open(v') && Resumed(v, v'))
            && (!(v.localVideo && v.videoGate) ==> v' == v.(remoteVideo := true))
  {
  }

  /** A toggle switched on opens the camera; switched off, or not sent, it leaves it dark. */
  lemma ToggleOpens(v: Video, enabled: bool, ok: bool)
    requires !v.ended
    ensures var v' := Step(v, Toggling(enabled, ok));
            if !v.group && v.incoming && !v.acceptSent then v' == v.(parkedEnable := Some(enabled))
            else
              && OnlyCamera(v, v')
              && (if enabled && ok then Open(v') && Resumed(v, v') else Dark(v'))
              && v'.wire == v.wire + if ok then [CameraToggle(enabled)] else []
  {
  }

  /** A requested upgrade waits, and one not sent leaves the camera dark. */
  lemma RequestWaits(v: Video, ok: bool, ok': bool)
    requires !v.ended
    ensures var v' := Step(v, Transitioning(RequestUpgrade, ok, ok'));
            && OnlyCamera(v, v')
            && (if ok then Waiting(v') else Dark(v'))
            && v'.wire == v.wire + if ok then [UpgradeRequest] else []
  {
  }

  /** Stopping darkens the camera and says so. */
  lemma StopDarkens(v: Video, ok: bool, ok': bool)
    requires !v.ended
    ensures var v' := Step(v, Transitioning(StopVideo, ok, ok'));
            && OnlyCamera(v, v') && Dark(v')
            && v'.wire == v.wire + if ok then [VideoStopped] else []
  {
  }

  /** A declined upgrade darkens a waiting camera and no other. */
  lemma RejectDarkens(v: Video, ok: bool)
    ensures var v' := Step(v, PeerStanza(PeerReject, ok));
            && !v'.peerUpgrade && v'.wire == v.wire
            && (if v.videoGate then OnlyCamera(v.(peerUpgrade := false), v') && Dark(v')
                else v' == v.(peerUpgrade := false))
  {
  }

  /** Answering a pending request takes it, with the own dark camera announced first; a failed
      stanza puts it back. */
  lemma UpgradeIsAnswered(v: Video, ok: bool, ok': bool)
    requires !v.ended
    ensures var v' := Step(v, Transitioning(AcceptUpgrade, ok, ok'));
            if !v.peerUpgrade || !ok then v' == v
            else if v.localVideo then v' == v.(peerUpgrade := false, wire := v.wire + [UpgradeAccept])
            else if ok' then v' == v.(peerUpgrade := false, wire := v.wire + [VideoStopped, UpgradeAccept])
            else v' == v.(wire := v.wire + [VideoStopped])
  {
    hide AfterRequest, Video.On, Video.Off;
  }

  /** An orientation from 0 to 3 is parked, or sent while the camera is on; nothing else changes. */
  lemma OrientationIsSent(v: Video, o: int, ok: bool)
    requires !v.ended
    ensures var v' := Step(v, Orienting(o, ok));
            if !(0 <= o <= 3) then v' == v
            else if !v.group && v.incoming && !v.acceptSent then v' == v.(parkedOrientation := Some(o))
            else v' == v.(wire := v.wire + if v.localVideo && ok then [CameraOrientation(o)] else [])
  {
  }

  // ----- frames -----

  /** An IDR with packets is among the first units. */
  predicate Refreshed(aus: seq<AccessUnit>, n: nat)
    requires n <= |aus|
  {
    exists j :: 0 <= j < n && aus[j].idr && aus[j].packets > 0
  }

  /** A sender's packets for some access units: while it is active and ungated everything from the
      first IDR with packets on, delta units included, and the units before it too if no keyframe
      is owed; otherwise nothing. */
  method SendAll(tx: VideoSender, aus: seq<AccessUnit>) returns (out: seq<nat>)
    modifies tx
    ensures tx.active == old(tx.active) && tx.sendGated == old(tx.sendGated) && tx.orientation == old(tx.orientation)
    ensures |out| == |aus|
    ensures forall i :: 0 <= i < |aus| ==>
              out[i] == if old(tx.active && !tx.sendGated) && (old(!tx.keyframeRequired) || Refreshed(aus, i + 1))
                        then aus[i].packets else 0
    ensures tx.keyframeRequired <==>
              old(tx.keyframeRequired) && !(old(tx.active && !tx.sendGated) && Refreshed(aus, |aus|))
  {
    out := [];
    for i := 0 to |aus|
      invariant tx.active == old(tx.active) && tx.sendGated == old(tx.sendGated)
      invariant tx.orientation == old(tx.orientation) && |out| == i
      invariant tx.keyframeRequired <==>
                  old(tx.keyframeRequired) && !(old(tx.active && !tx.sendGated) && Refreshed(aus, i))
      invariant forall k :: 0 <= k < i ==>
                  out[k] == if old(tx.active && !tx.sendGated) && (old(!tx.keyframeRequired) || Refreshed(aus, k + 1))
                            then aus[k].packets else 0
    {
      assert Refreshed(aus, i + 1) <==> Refreshed(aus, i) || (aus[i].idr && aus[i].packets > 0);
      var packets := tx.ProtectAccessUnit(aus[i]);
      out := out + [packets];
    }
  }

  /** An upgrade from the request to the picture: no unit comes out while the camera waits for the
      peer; once the peer has accepted, or shows video itself, all come out from the first IDR with
      packets on. */
  method PlayUpgrade(c: EngineCall, waiting: seq<AccessUnit>, answer: PeerState, aus: seq<AccessUnit>)
    returns (early: seq<nat>, out: seq<nat>)
    requires !c.ended && c.videoTx != null && (answer.PeerAccept? || answer.PeerEnabled?)
    modifies c, c.videoTx
    ensures c.localVideo && !c.videoGate && c.videoTx == old(c.videoTx)
    ensures c.videoTx.active && !c.videoTx.sendGated
    ensures c.wire == old(c.wire) + [UpgradeRequest] + if answer.PeerAccept? then [VideoAnnounced] else []
    ensures |early| == |waiting| && forall i :: 0 <= i < |waiting| ==> early[i] == 0
    ensures |out| == |aus|
    ensures forall i :: 0 <= i < |aus| ==> out[i] == if Refreshed(aus, i + 1) then aus[i].packets else 0
  {
    ghost var v := c.View();
    RequestWaits(v, true, true);
    var _ := c.TransitionVideo(RequestUpgrade, true, true);
    early := SendAll(c.videoTx, waiting);
    PeerAcceptOpens(c.View(), true);
    PeerEnabledOpens(c.View(), true);
    c.OnVideoStanza(answer, true);
    out := SendAll(c.videoTx, aus);
  }

  /** A camera switched on shows a picture from the first IDR with packets on. */
  method PlayToggle(c: EngineCall, aus: seq<AccessUnit>) returns (out: seq<nat>)
    requires !c.ended && (c.group || !c.incoming || c.acceptSent) && c.videoTx != null
    modifies c, c.videoTx
    ensures c.localVideo && !c.videoGate && c.videoTx == old(c.videoTx)
    ensures c.wire == old(c.wire) + [CameraToggle(true)]
    ensures |out| == |aus|
    ensures forall i :: 0 <= i < |aus| && Refreshed(aus, i + 1) ==> out[i] == aus[i].packets
    ensures old(!c.videoTx.active) ==> forall i :: 0 <= i < |aus| && !Refreshed(aus, i + 1) ==> out[i] == 0
  {
    ToggleOpens(c.View(), true, true);
    var _ := c.SetVideoEnabled(true, true);
    out := SendAll(c.videoTx, aus);
  }

  /** Media coming up under an open camera shows a picture from the first IDR with packets on, and
      under any other camera none. */
  method PlayMediaUp(c: EngineCall, aus: seq<AccessUnit>) returns (out: seq<nat>)
    modifies c
    ensures c.localVideo == old(c.localVideo) && c.videoGate == old(c.videoGate) && c.wire == old(c.wire)
    ensures |out| == |aus|
    ensures forall i :: 0 <= i < |aus| ==>
              out[i] == if c.localVideo && !c.videoGate && Refreshed(aus, i + 1) then aus[i].packets else 0
  {
    c.PublishSender();
    out := SendAll(c.videoTx, aus);
  }
}
