/**
  Whole runs of the receive registry: from its creation through any sequence of roster updates,
  epochs and late attachments.
 */
module GroupReceiveRuns {
  import opened Common
  import opened GroupLedger
  import opened GroupReceive

  /** Whatever a call does with its registry; an update comes with a callback of any kind. */
  datatype Op =
    | Roster(u: Update, cb: Option<Callback>)
    | Offer(e: Epoch)
    | Rekey(peer: Option<(string, string)>)
    | AttachPipeline(state: Pipe)
    | AttachSender(keys: Keys)
    | ClearAll

  predicate Commits(cb: Option<Callback>) {
    cb.Some? && cb.value.commits > 0
  }

  ghost function AfterOp(d: Derivation, l: Ledger, op: Op): Ledger {
    match op
    case Roster(u, cb) => if Commits(cb) then ApplyUpdate(d, l, u) else l
    case Offer(e) => ApplyEpoch(l, e)
    case Rekey(peer) => if peer.Some? then ApplyFallback(l, d.format(peer.value.1)) else l
    case ClearAll => Cleared(l)
    case _ => l
  }

  ghost function RunOps(d: Derivation, l: Ledger, ops: seq<Op>): Ledger {
    if ops == [] then l else AfterOp(d, RunOps(d, l, ops[..|ops| - 1]), ops[|ops| - 1])
  }

  /** The updates and epochs among the operations. */
  function Delivered(ops: seq<Op>): seq<Event> {
    if ops == [] then []
    else
      var op := ops[|ops| - 1];
      Delivered(ops[..|ops| - 1]) +
      if op.Roster? && Commits(op.cb) then [RosterEvent(op.u)] else if op.Offer? then [EpochEvent(op.e)] else []
  }

  /** Without fallback rekeys and clearing, a run of the registry is a run of its updates and
      epochs, to which convergence applies. */
  lemma {:induction false} RunIsItsEvents(d: Derivation, l: Ledger, ops: seq<Op>)
    requires forall i :: 0 <= i < |ops| ==> !ops[i].Rekey? && !ops[i].ClearAll?
    ensures RunOps(d, l, ops) == Run(d, l, Delivered(ops))
    decreases |ops|
  {
    if ops != [] {
      hide ApplyUpdate, ApplyEpoch;
      var front, op := ops[..|ops| - 1], ops[|ops| - 1];
      RunIsItsEvents(d, l, front);
      if op.Roster? && Commits(op.cb) {
        RunSnoc(d, l, Delivered(front), RosterEvent(op.u));
      } else if op.Offer? {
        RunSnoc(d, l, Delivered(front), EpochEvent(op.e));
      } else {
        assert Delivered(front) + [] == Delivered(front);
      }
    }
  }

  lemma RunSnoc(d: Derivation, l: Ledger, evs: seq<Event>, ev: Event)
    ensures Run(d, l, evs + [ev]) == Apply(d, Run(d, l, evs), ev)
  {
    assert (evs + [ev])[..|evs|] == evs;
  }

  /** A registry is created unless the call key is too short for the receivers' keys or the peer's
      address cannot be parsed. */
  method Create(d: Derivation, callKey: Bytes, peer: Option<(string, string)>) returns (r: Registry?)
    ensures r == null <==> peer.None? || |callKey| < RAW_KEY_BYTES
    ensures r != null ==> fresh(r) && r.Valid() && fresh(r.x.byDevice.Values)
    ensures r != null ==> r.sendPipes == [] && r.srtcpSenders == []
    ensures r != null ==> r.View() == Fresh(d.format(peer.value.1)) && r.d == d
  {
    if peer.None? || |callKey| < RAW_KEY_BYTES {
      return null;
    }
    r := new Registry(d, callKey, peer.value.0, peer.value.1);
  }

  method TakeUpdate(r: Registry, u: Update, cb: Option<Callback>)
    requires r.Valid()
    modifies r, r.x.byDevice.Values, r.sendPipes, r.srtcpSenders
    ensures r.Valid() && r.View() == AfterOp(r.d, old(r.View()), Roster(u, cb))
    ensures fresh(r.x.byDevice.Values - old(r.x.byDevice.Values))
    ensures r.sendPipes == old(r.sendPipes) && r.srtcpSenders == old(r.srtcpSenders)
  {
    assert Ordered(r.View());
    AcceptsExactly(r.d, r.View(), u);
    hide Registry.Valid, GroupLedger.Commit, Accepts, ActiveUnder, CarriesRoster, GoodRoster, Names;
    var _ := r.ApplyGroupUpdateTransaction(u, cb);
  }

  method TakeEpoch(r: Registry, e: Epoch)
    requires r.Valid()
    modifies r, r.x.byDevice.Values, r.sendPipes, r.srtcpSenders
    ensures r.Valid() && r.View() == AfterOp(r.d, old(r.View()), Offer(e))
    ensures r.x == old(r.x) && r.sendPipes == old(r.sendPipes) && r.srtcpSenders == old(r.srtcpSenders)
  {
    hide Registry.Valid, ApplyEpoch, OfferEpoch, RocsOf;
    var _ := r.ApplyGroupRawEpoch(e);
  }

  method RekeyPeer(r: Registry, peer: Option<(string, string)>)
    requires r.Valid()
    modifies r
    ensures r.Valid() && r.View() == AfterOp(r.d, old(r.View()), Rekey(peer))
    ensures fresh(r.x.byDevice.Values - old(r.x.byDevice.Values))
    ensures r.sendPipes == old(r.sendPipes) && r.srtcpSenders == old(r.srtcpSenders)
  {
    hide Registry.Valid, ApplyFallback;
    var _ := r.RekeyFallback(peer);
  }

  method AttachNewPipeline(r: Registry, state: Pipe) returns (p: MediaPipeline)
    requires r.Valid()
    modifies r`sendPipes
    ensures r.Valid() && r.View() == old(r.View())
    ensures fresh(p) && r.sendPipes == old(r.sendPipes) + [p]
  {
    hide Inverse, PidsCarried, Ordered;
    p := new MediaPipeline(state);
    var _ := r.AttachSendPipeline(p);
  }

  method AttachNewSender(r: Registry, keys: Keys) returns (s: SrtcpSender)
    requires r.Valid()
    modifies r`srtcpSenders
    ensures r.Valid() && r.View() == old(r.View())
    ensures fresh(s) && r.srtcpSenders == old(r.srtcpSenders) + [s]
  {
    hide Inverse, PidsCarried, Ordered;
    s := new SrtcpSender(keys);
    var _ := r.AttachSrtcpSender(s);
  }

  /** The objects a registry acts on. */
  ghost function Repr(r: Registry): set<object>
    reads r
  {
    (set o: object | o in r.x.byDevice.Values) + (set o: object | o in r.sendPipes)
    + (set o: object | o in r.srtcpSenders)
  }

  method Perform(r: Registry, op: Op)
    requires r.Valid()
    modifies r, Repr(r)
    ensures r.Valid() && fresh(Repr(r) - old(Repr(r)))
    ensures r.View() == AfterOp(r.d, old(r.View()), op)
  {
    hide Registry.Valid, Registry.View, ApplyUpdate, ApplyEpoch, ApplyFallback;
    match op
    case Roster(u, cb) => TakeUpdate(r, u, cb);
    case Offer(e) => TakeEpoch(r, e);
    case Rekey(peer) => RekeyPeer(r, peer);
    case AttachPipeline(state) =>
      var _ := AttachNewPipeline(r, state);
    case AttachSender(keys) =>
      var _ := AttachNewSender(r, keys);
    case ClearAll => r.Clear();
  }

  /** Whatever is delivered under whatever callbacks, whenever senders are attached, the peer moves
      or everything is cleared: the registry stays coherent, its keys agree, and it shows the ledger
      of what was done. */
  method Drive(d: Derivation, callKey: Bytes, peer: Option<(string, string)>, ops: seq<Op>) returns (r: Registry?)
    ensures r == null <==> peer.None? || |callKey| < RAW_KEY_BYTES
    ensures r != null ==> r.Valid() && r.d == d && r.View() == RunOps(d, Fresh(d.format(peer.value.1)), ops)
  {
    hide Registry.Valid, Registry.View, RunOps;
    r := Create(d, callKey, peer);
    if r != null {
      PerformAll(r, ops);
    }
  }

  method PerformAll(r: Registry, ops: seq<Op>)
    requires r.Valid()
    modifies r, Repr(r)
    ensures r.Valid() && r.View() == RunOps(r.d, old(r.View()), ops)
  {
    hide Registry.Valid, Registry.View, RunOps, AfterOp;
    ghost var start, first, d := r.View(), Repr(r), r.d;
    RunNothing(d, start);
    assert ops[..0] == [];
    for i := 0 to |ops|
      invariant fresh(Repr(r) - first)
      invariant r.Valid() && r.View() == RunOps(d, start, ops[..i])
    {
      RunOn(d, start, ops, i);
      ghost var repr := Repr(r);
      Perform(r, ops[i]);
      assert Repr(r) - first <= (Repr(r) - repr) + (repr - first);
    }
    assert ops[..|ops|] == ops;
  }

  lemma RunOn(d: Derivation, l: Ledger, ops: seq<Op>, i: nat)
    requires i < |ops|
    ensures RunOps(d, l, ops[..i + 1]) == AfterOp(d, RunOps(d, l, ops[..i]), ops[i])
  {
    assert ops[..i + 1][..i] == ops[..i];
  }

  lemma RunNothing(d: Derivation, l: Ledger)
    ensures RunOps(d, l, []) == l
  {
  }
}
