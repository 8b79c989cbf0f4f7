/**
  What the operations of group control do when they run to their end with nothing else in between,
  and what each final critical section stores.  Module GroupControl bounds how a call moves over
  all interleavings; this module says that it does move.
 */
module GroupAlone {
  import opened Common
  import opened GroupLedger
  import opened GroupControl

  lemma RunTwo(d: Derivation, s: Engine, a: Action, b: Action)
    ensures GroupControl.Run(d, s, [a, b]) == Step(d, Step(d, s, a), b)
  {
    hide Step;
    assert [a, b][..1] == [a] && [a][..0] == [];
    assert GroupControl.Run(d, s, []) == s;
    assert GroupControl.Run(d, s, [a]) == Step(d, s, a);
  }

  lemma RunThree(d: Derivation, s: Engine, a: Action, b: Action, c: Action)
    ensures GroupControl.Run(d, s, [a, b, c]) == Step(d, Step(d, Step(d, s, a), b), c)
  {
    RunTwo(d, s, a, b);
    hide Step;
    assert [a, b, c][..2] == [a, b];
  }

  /** An operation just entered into the table is the next to run its section. */
  lemma ResumeSpawned(d: Derivation, s: Engine, op: Op)
    requires s.nextOp !in s.ops
    ensures Step(d, Spawn(s, op), Resume(s.nextOp)) == Continue(d, s.(nextOp := s.nextOp + 1), op)
  {
    hide Continue;
    assert Spawn(s, op).ops - {s.nextOp} == s.ops;
  }

  lemma ResumeNothing(d: Derivation, s: Engine, k: nat)
    requires k !in s.ops
    ensures Step(d, s, Resume(k)) == s
  {
    hide Continue;
  }

  /** An operation of three sections, and one that ends with its second. */
  lemma ThreeSections(d: Derivation, s: Engine, a: Action, op: Op, t: Engine, last: Op)
    requires s.nextOp !in s.ops && t.nextOp == s.nextOp + 1 && t.nextOp !in t.ops
    requires Step(d, s, a) == Spawn(s, op) && Continue(d, s.(nextOp := s.nextOp + 1), op) == Spawn(t, last)
    ensures GroupControl.Run(d, s, [a, Resume(s.nextOp), Resume(s.nextOp + 1)]) ==
            Continue(d, t.(nextOp := s.nextOp + 2), last)
  {
    hide *;
    RunThree(d, s, a, Resume(s.nextOp), Resume(s.nextOp + 1));
    ResumeSpawned(d, s, op);
    ResumeSpawned(d, t, last);
  }

  lemma TwoSections(d: Derivation, s: Engine, a: Action, op: Op, t: Engine)
    requires s.nextOp !in s.ops && s.nextOp + 1 !in t.ops
    requires Step(d, s, a) == Spawn(s, op) && Continue(d, s.(nextOp := s.nextOp + 1), op) == t
    ensures GroupControl.Run(d, s, [a, Resume(s.nextOp), Resume(s.nextOp + 1)]) == t
  {
    hide *;
    RunThree(d, s, a, Resume(s.nextOp), Resume(s.nextOp + 1));
    ResumeSpawned(d, s, op);
    ResumeNothing(d, t, s.nextOp + 1);
  }

  lemma NoSection(d: Derivation, s: Engine, a: Action)
    requires s.nextOp !in s.ops && s.nextOp + 1 !in s.ops && Step(d, s, a) == s
    ensures GroupControl.Run(d, s, [a, Resume(s.nextOp), Resume(s.nextOp + 1)]) == s
  {
    hide *;
    RunThree(d, s, a, Resume(s.nextOp), Resume(s.nextOp + 1));
    ResumeNothing(d, s, s.nextOp);
    ResumeNothing(d, s, s.nextOp + 1);
  }

  lemma FreeOps(s: Engine)
    requires Inv(s)
    ensures s.nextOp !in s.ops && s.nextOp + 1 !in s.ops && s.nextReg !in s.regs
    ensures forall id :: id in s.calls && s.calls[id].receivers.Some? ==> s.calls[id].receivers.value in s.regs
  {
    forall id | id in s.calls ensures CallOk(s, id) {
    }
  }

  // ----- what the last critical sections store -----

  /** An update back from its registry is in the call afterwards unless one at least as new is;
      then nothing changes.  No other call and no registry is touched. */
  lemma UpdateIsStored(d: Derivation, s: Engine, k: nat)
    requires k in s.ops && s.ops[k].UpdateApplied? && s.ops[k].id in s.calls
    ensures var id, u, s' := s.ops[k].id, s.ops[k].u, Step(d, s, Resume(k));
            var c := s.calls[id];
            && s'.calls.Keys == s.calls.Keys && s'.regs == s.regs && s'.ops == s.ops - {k}
            && s'.calls[id].update.Some? && u.tx <= s'.calls[id].update.value.tx
            && (c.update.None? || c.update.value.tx < u.tx ==>
                  s'.calls == s.calls[id := Call(c.instance, true, Some(u), c.epoch, c.receivers, c.settled)])
            && (c.update.Some? && u.tx <= c.update.value.tx ==> s'.calls == s.calls)
  {
  }

  /** The same of an epoch, of a group call. */
  lemma EpochIsStored(d: Derivation, s: Engine, k: nat)
    requires k in s.ops && s.ops[k].EpochApplied? && s.ops[k].id in s.calls && s.calls[s.ops[k].id].group
    ensures var id, e, s' := s.ops[k].id, s.ops[k].e, Step(d, s, Resume(k));
            var c := s.calls[id];
            && s'.calls.Keys == s.calls.Keys && s'.regs == s.regs && s'.ops == s.ops - {k}
            && s'.calls[id].epoch.Some? && e.tx <= s'.calls[id].epoch.value.tx
            && (c.epoch.None? || c.epoch.value.tx < e.tx ==>
                  s'.calls == s.calls[id := Call(c.instance, c.group, c.update, Some(e), c.receivers, c.settled)])
            && (c.epoch.Some? && e.tx <= c.epoch.value.tx ==> s'.calls == s.calls)
  {
  }

  // ----- an update by itself -----

  /** The call's registry, if it has one, lets the update through: it has one as new, or the
      roster's devices can be told apart and keyed. */
  ghost predicate UpdatePasses(d: Derivation, s: Engine, id: string, u: Update)
    requires id in s.calls
  {
    s.calls[id].receivers.Some? ==>
      && s.calls[id].receivers.value in s.regs
      && var l := s.regs[s.calls[id].receivers.value];
         || (l.hasUpdate && u.tx <= l.tx)
         || (GoodRoster(d, u.participants) && (l.keyed || forall x :: Names(d, u.participants, x) ==> x in l.active))
  }

  ghost function UpdateRun(d: Derivation, s: Engine, id: string, u: Update): Engine {
    GroupControl.Run(d, s, [BeginUpdate(id, u), Resume(s.nextOp), Resume(s.nextOp + 1)])
  }

  /** A new update that its registry lets through ends stored in the call, and its registry has it
      in force unless it had one as new before.  Every other update changes nothing. */
  lemma UpdateAlone(d: Derivation, s: Engine, id: string, u: Update)
    requires Inv(s)
    ensures var s' := UpdateRun(d, s, id, u);
            && s'.ops == s.ops
            && if id != "" && id in s.calls && (s.calls[id].update.None? || s.calls[id].update.value.tx < u.tx)
                  && UpdatePasses(d, s, id, u)
               then
                 && s'.calls == s.calls[id := s.calls[id].(group := true, update := Some(u))]
                 && (s.calls[id].receivers.None? ==> s'.regs == s.regs)
                 && (s.calls[id].receivers.Some? ==>
                       var r := s.calls[id].receivers.value;
                       && r in s.regs && r in s'.regs && s'.regs == s.regs[r := s'.regs[r]]
                       && UpdateHeld(d, s.regs[r], s'.regs[r], u))
               else s'.calls == s.calls && s'.regs == s.regs
  {
    if id in s.calls && s.calls[id].receivers.Some? {
      assert CallOk(s, id);
      RegistryTakes(d, s.regs[s.calls[id].receivers.value], u);
    }
    UpdateEnds(d, s, id, u);
    hide Inv, CallOk, Accepts, ApplyUpdate, UpdateHeld, GoodRoster, Names, UpdateRun;
  }

  /** The call with an update stored. */
  function Stored(s: Engine, id: string, u: Update): map<string, Call>
    requires id in s.calls
  {
    s.calls[id := s.calls[id].(group := true, update := Some(u))]
  }

  lemma UpdateEnds(d: Derivation, s: Engine, id: string, u: Update)
    requires Inv(s)
    ensures var n, s' := s.nextOp, UpdateRun(d, s, id, u);
            if id == "" || id !in s.calls || !UpdateIsNew(s.calls[id], u) then s' == s
            else match s.calls[id].receivers
              case None => s' == s.(calls := Stored(s, id, u), nextOp := n + 2)
              case Some(r) =>
                && r in s.regs
                && if Stale(s.regs[r], u) || Accepts(d, s.regs[r], u)
                   then s' == s.(calls := Stored(s, id, u), regs := s.regs[r := ApplyUpdate(d, s.regs[r], u)],
                                 nextOp := n + 2)
                   else s' == s.(nextOp := n + 1)
  {
    FreeOps(s);
    hide Inv, Accepts, ApplyUpdate, Stale, GroupControl.Run;
    var a, s0 := BeginUpdate(id, u), s.(nextOp := s.nextOp + 1);
    if id != "" && id in s.calls && UpdateIsNew(s.calls[id], u) {
      var rs := s.calls[id].receivers;
      var op := UpdateChosen(id, u, rs);
      if rs.None? {
        ThreeSections(d, s, a, op, s0, UpdateApplied(id, u, None));
      } else {
        var l := s.regs[rs.value];
        UpdateLetThrough(d, s0, id, u, rs.value);
        if Stale(l, u) || Accepts(d, l, u) {
          ThreeSections(d, s, a, op, s0.(regs := s.regs[rs.value := ApplyUpdate(d, l, u)]), UpdateApplied(id, u, rs));
        } else {
          TwoSections(d, s, a, op, s0);
        }
      }
    } else {
      NoSection(d, s, a);
    }
  }

  lemma UpdateLetThrough(d: Derivation, s: Engine, id: string, u: Update, r: nat)
    requires r in s.regs
    ensures var l := s.regs[r];
            Continue(d, s, UpdateChosen(id, u, Some(r))) ==
            if Stale(l, u) || Accepts(d, l, u)
            then Spawn(s.(regs := s.regs[r := ApplyUpdate(d, l, u)]), UpdateApplied(id, u, Some(r)))
            else s
  {
  }

  /** l' has the update, or still the one as new that l had; only a newer update changes anything,
      and then the roster's devices are active. */
  ghost predicate UpdateHeld(d: Derivation, l: Ledger, l': Ledger, u: Update) {
    && l'.hasUpdate && u.tx <= l'.tx
    && if l.hasUpdate && u.tx <= l.tx then l' == l
       else l'.tx == u.tx && ActiveUnder(d, u.participants, l.active, l.fallback, l'.active)
  }

  lemma RegistryTakes(d: Derivation, l: Ledger, u: Update)
    requires Ordered(l)
    ensures (l.hasUpdate && u.tx <= l.tx) || Accepts(d, l, u) ==> UpdateHeld(d, l, ApplyUpdate(d, l, u), u)
    ensures Accepts(d, l, u) <==>
              && (l.hasUpdate ==> l.tx < u.tx)
              && GoodRoster(d, u.participants)
              && (!l.keyed ==> forall id :: Names(d, u.participants, id) ==> id in l.active)
  {
    AcceptsExactly(d, l, u);
    CommitActivates(d, l, u);
    hide GoodRoster, Names, ActiveUnder, Admissible, NextActive, Select;
  }

  // ----- an epoch by itself -----

  /** The call's registry, if it has one, has no other key for the epoch's transaction. */
  ghost predicate EpochPasses(s: Engine, id: string, e: Epoch)
    requires id in s.calls
  {
    s.calls[id].receivers.Some? ==>
      && s.calls[id].receivers.value in s.regs
      && var l := s.regs[s.calls[id].receivers.value];
         && (e.tx in l.pending ==> l.pending[e.tx] == e.key)
         && (l.installed.Some? && l.installed.value.tx == e.tx ==> l.installed.value.key == e.key)
  }

  ghost function EpochRun(d: Derivation, s: Engine, id: string, e: Epoch): Engine {
    GroupControl.Run(d, s, [BeginEpoch(id, e), Resume(s.nextOp), Resume(s.nextOp + 1)])
  }

  /** The registry keeps the epoch for a later roster, or has it or a newer one installed. */
  ghost predicate EpochHeld(l: Ledger, e: Epoch) {
    || ((l.hasUpdate ==> l.tx < e.tx) && e.tx in l.pending && l.pending[e.tx] == e.key)
    || (l.hasUpdate && e.tx <= l.tx && l.installed.Some?
        && (e.tx < l.installed.value.tx || l.installed.value == e))
  }

  /** A new epoch of a group call that its registry lets through ends stored in the call and held
      by the registry.  Every other epoch changes nothing. */
  lemma EpochAlone(d: Derivation, s: Engine, id: string, e: Epoch)
    requires Inv(s)
    ensures var s' := EpochRun(d, s, id, e);
            && s'.ops == s.ops
            && if id != "" && e.tx != 0 && |e.key| == RAW_KEY_BYTES && id in s.calls && s.calls[id].group
                  && (s.calls[id].epoch.None? || s.calls[id].epoch.value.tx < e.tx) && EpochPasses(s, id, e)
               then
                 && s'.calls == s.calls[id := s.calls[id].(epoch := Some(e))]
                 && (s.calls[id].receivers.None? ==> s'.regs == s.regs)
                 && (s.calls[id].receivers.Some? ==>
                       var r := s.calls[id].receivers.value;
                       && r in s.regs && r in s'.regs && s'.regs == s.regs[r := s'.regs[r]]
                       && EpochHeld(s'.regs[r], e)
                       && s'.regs[r].tx == s.regs[r].tx && s'.regs[r].active == s.regs[r].active)
               else s'.calls == s.calls && s'.regs == s.regs
  {
    if id in s.calls && s.calls[id].receivers.Some? && |e.key| == RAW_KEY_BYTES {
      assert CallOk(s, id);
      RegistryHolds(s.regs[s.calls[id].receivers.value], e);
    }
    EpochEnds(d, s, id, e);
    hide Inv, CallOk, ApplyEpoch, OfferEpoch, EpochHeld, EpochRun;
  }

  ghost predicate EpochBegins(s: Engine, id: string, e: Epoch) {
    && id != "" && e.tx != 0 && |e.key| == RAW_KEY_BYTES && id in s.calls && s.calls[id].group
    && EpochIsNew(s.calls[id], e)
  }

  lemma EpochEnds(d: Derivation, s: Engine, id: string, e: Epoch)
    requires Inv(s)
    ensures var n, s' := s.nextOp, EpochRun(d, s, id, e);
            if !EpochBegins(s, id, e) then s' == s
            else
              var calls := s.calls[id := s.calls[id].(epoch := Some(e))];
              match s.calls[id].receivers
              case None => s' == s.(calls := calls, nextOp := n + 2)
              case Some(r) =>
                && r in s.regs
                && if OfferEpoch(s.regs[r], e).Accepted?
                   then s' == s.(calls := calls, regs := s.regs[r := ApplyEpoch(s.regs[r], e)], nextOp := n + 2)
                   else s' == s.(nextOp := n + 1)
  {
    FreeOps(s);
    hide Inv, OfferEpoch, ApplyEpoch, GroupControl.Run;
    var a, s0 := BeginEpoch(id, e), s.(nextOp := s.nextOp + 1);
    if EpochBegins(s, id, e) {
      var rs := s.calls[id].receivers;
      var op := EpochChosen(id, e, rs);
      if rs.None? {
        ThreeSections(d, s, a, op, s0, EpochApplied(id, e, None));
      } else {
        var l := s.regs[rs.value];
        EpochLetThrough(d, s0, id, e, rs.value);
        if OfferEpoch(l, e).Accepted? {
          ThreeSections(d, s, a, op, s0.(regs := s.regs[rs.value := ApplyEpoch(l, e)]), EpochApplied(id, e, rs));
        } else {
          TwoSections(d, s, a, op, s0);
        }
      }
    } else {
      NoSection(d, s, a);
    }
  }

  lemma EpochLetThrough(d: Derivation, s: Engine, id: string, e: Epoch, r: nat)
    requires r in s.regs
    ensures var l := s.regs[r];
            Continue(d, s, EpochChosen(id, e, Some(r))) ==
            if OfferEpoch(l, e).Accepted?
            then Spawn(s.(regs := s.regs[r := ApplyEpoch(l, e)]), EpochApplied(id, e, Some(r)))
            else s
  {
  }

  lemma RegistryHolds(l: Ledger, e: Epoch)
    requires Ordered(l) && |e.key| == RAW_KEY_BYTES
    ensures OfferEpoch(l, e).Accepted? <==>
              && (e.tx in l.pending ==> l.pending[e.tx] == e.key)
              && (l.installed.Some? && l.installed.value.tx == e.tx ==> l.installed.value.key == e.key)
    ensures OfferEpoch(l, e).Accepted? ==>
              var l' := ApplyEpoch(l, e);
              EpochHeld(l', e) && l'.tx == l.tx && l'.active == l.active
  {
  }

  // ----- startup and the end of a call by themselves -----

  /** Starting the media of a direct call publishes a registry with the peer alone. */
  lemma DirectStartAlone(d: Derivation, s: Engine, id: string, fallback: string)
    requires Inv(s) && id in s.calls && s.calls[id].receivers.None? && !s.calls[id].group
    ensures var s' := GroupControl.Run(d, s, [StartMedia(id, fallback), Resume(s.nextOp)]);
            && s'.ops == s.ops && id in s'.calls
            && s'.calls == s.calls[id := s.calls[id].(receivers := Some(s.nextReg), settled := s'.calls[id].settled)]
            && s'.regs == s.regs[s.nextReg := Ledger(false, 0, {fallback}, fallback, true, None, map[])]
            && s.nextReg !in s.regs
  {
    RunTwo(d, s, StartMedia(id, fallback), Resume(s.nextOp));
    assert s.nextOp !in s.ops && s.nextReg !in s.regs;
    hide Inv, Agrees, Undisturbed;
    assert Step(d, s, StartMedia(id, fallback)).ops - {s.nextOp} == s.ops;
  }

  ghost function GroupStartRun(d: Derivation, s: Engine, id: string, fallback: string): Engine {
    GroupControl.Run(d, s, [StartMedia(id, fallback), Resume(s.nextOp), Resume(s.nextOp + 1)])
  }

  /** Starting the media of a group call publishes a registry that has the call's roster in force
      and holds its epoch; a roster whose devices cannot be told apart is not published. */
  lemma GroupStartAlone(d: Derivation, s: Engine, id: string, fallback: string)
    requires Inv(s) && id in s.calls && s.calls[id].receivers.None? && s.calls[id].group
    requires s.calls[id].update.Some? && s.calls[id].epoch.Some? && |s.calls[id].epoch.value.key| == RAW_KEY_BYTES
    ensures var s' := GroupStartRun(d, s, id, fallback);
            var c := s.calls[id];
            && s'.ops == s.ops
            && if GoodRoster(d, c.update.value.participants) then
                 && id in s'.calls
                 && s'.calls == s.calls[id := c.(receivers := Some(s.nextReg), settled := s'.calls[id].settled)]
                 && s.nextReg !in s.regs && s.nextReg in s'.regs
                 && s'.regs == s.regs[s.nextReg := s'.regs[s.nextReg]]
                 && Started(d, s'.regs[s.nextReg], c.update.value, c.epoch.value, fallback)
               else s'.calls == s.calls && s'.regs == s.regs
  {
    FreshTakes(d, fallback, s.calls[id].update.value, s.calls[id].epoch.value);
    GroupStartEnds(d, s, id, fallback);
    assert s.nextReg !in s.regs;
    hide Inv, Agrees, Undisturbed, Started, GoodRoster, ApplyUpdate, ApplyEpoch, OfferEpoch, Accepts, Fresh, Stale;
    hide GroupStartRun;
  }

  lemma GroupStartEnds(d: Derivation, s: Engine, id: string, fallback: string)
    requires Inv(s) && id in s.calls && s.calls[id].receivers.None? && s.calls[id].group
    requires s.calls[id].update.Some? && s.calls[id].epoch.Some? && |s.calls[id].epoch.value.key| == RAW_KEY_BYTES
    ensures var s', c := GroupStartRun(d, s, id, fallback), s.calls[id];
            if GoodRoster(d, c.update.value.participants) then
              var own := ApplyEpoch(ApplyUpdate(d, Fresh(fallback), c.update.value), c.epoch.value);
              s' == Publish(s.(nextOp := s.nextOp + 2), id, own)
            else s' == s.(nextOp := s.nextOp + 1)
  {
    var c, s0 := s.calls[id], s.(nextOp := s.nextOp + 1);
    var u, e, a, op := c.update.value, c.epoch.value, StartMedia(id, fallback), Starting(id, true, Fresh(fallback));
    var own := ApplyEpoch(ApplyUpdate(d, Fresh(fallback), u), e);
    FreeOps(s);
    SnapshotTaken(d, s0, id, fallback);
    assert Step(d, s, a) == Spawn(s, op);
    hide Inv, GoodRoster, ApplyUpdate, ApplyEpoch, Fresh, Continue, Publish, Step, GroupControl.Run;
    if GoodRoster(d, u.participants) {
      ThreeSections(d, s, a, op, s0, Snapshotted(id, own, c.instance, u, e));
      SnapshotPublished(d, s0.(nextOp := s.nextOp + 2), id, own);
    } else {
      TwoSections(d, s, a, op, s0);
    }
  }

  lemma SnapshotTaken(d: Derivation, s: Engine, id: string, fallback: string)
    requires id in s.calls && s.calls[id].group && s.calls[id].update.Some?
    requires s.calls[id].epoch.Some? && |s.calls[id].epoch.value.key| == RAW_KEY_BYTES
    ensures var c, u, e := s.calls[id], s.calls[id].update.value, s.calls[id].epoch.value;
            Continue(d, s, Starting(id, true, Fresh(fallback))) ==
            if GoodRoster(d, u.participants)
            then Spawn(s, Snapshotted(id, ApplyEpoch(ApplyUpdate(d, Fresh(fallback), u), e), c.instance, u, e))
            else s
  {
    FreshTakes(d, fallback, s.calls[id].update.value, s.calls[id].epoch.value);
    hide Started, GoodRoster, ApplyUpdate, ApplyEpoch, OfferEpoch, Accepts, Fresh, Stale;
  }

  lemma SnapshotPublished(d: Derivation, s: Engine, id: string, own: Ledger)
    requires id in s.calls && s.calls[id].group && s.calls[id].update.Some? && s.calls[id].receivers.None?
    requires s.calls[id].epoch.Some?
    ensures var c := s.calls[id];
            Continue(d, s, Snapshotted(id, own, c.instance, c.update.value, c.epoch.value)) == Publish(s, id, own)
  {
    hide Publish;
  }

  ghost predicate Started(d: Derivation, l: Ledger, u: Update, e: Epoch, fallback: string) {
    && l.hasUpdate && l.tx == u.tx && l.fallback == fallback && l.keyed
    && ActiveUnder(d, u.participants, {fallback}, fallback, l.active)
    && (if e.tx <= u.tx then l.installed == Some(e) && l.pending == map[]
        else l.installed == None && l.pending == map[e.tx := e.key])
  }

  lemma FreshTakes(d: Derivation, fallback: string, u: Update, e: Epoch)
    requires |e.key| == RAW_KEY_BYTES
    ensures var l := Fresh(fallback);
            && !Stale(l, u)
            && (Accepts(d, l, u) <==> GoodRoster(d, u.participants))
            && (Accepts(d, l, u) ==>
                  && OfferEpoch(ApplyUpdate(d, l, u), e).Accepted?
                  && Started(d, ApplyEpoch(ApplyUpdate(d, l, u), e), u, e, fallback))
  {
    AcceptsExactly(d, Fresh(fallback), u);
    CommitActivates(d, Fresh(fallback), u);
    hide GoodRoster, Names, ActiveUnder, Admissible, NextActive;
  }

  /** A snapshot is published exactly if the call, still a group call without a registry, has no
      newer update and no newer epoch by then; otherwise such a call is started again with what was
      built. */
  lemma SnapshotIsChecked(d: Derivation, s: Engine, k: nat)
    requires k in s.ops && s.ops[k].Snapshotted? && s.ops[k].id in s.calls
    requires s.calls[s.ops[k].id].group && s.calls[s.ops[k].id].receivers.None?
    requires k < s.nextOp && s.calls[s.ops[k].id].update.Some? && s.calls[s.ops[k].id].epoch.Some?
    ensures var op, c, s' := s.ops[k], s.calls[s.ops[k].id], Step(d, s, Resume(k));
            && s'.calls.Keys == s.calls.Keys
            && (c.update.value.tx <= op.u.tx && c.epoch.value.tx <= op.e.tx ==>
                  s'.ops == s.ops - {k} && s'.calls[op.id].receivers == Some(s.nextReg)
                  && s'.regs == s.regs[s.nextReg := op.own])
            && (c.update.value.tx > op.u.tx || c.epoch.value.tx > op.e.tx ==>
                  s'.calls == s.calls && s'.regs == s.regs
                  && s'.ops == (s.ops - {k})[s.nextOp := Starting(op.id, true, op.own)])
  {
    hide Agrees, Undisturbed;
  }

  /** A startup that goes on with a registry it has built before catches up: it publishes a registry
      with the call's roster in force and holding its epoch. */
  lemma StartCatchesUp(d: Derivation, s: Engine, k: nat)
    requires Inv(s) && k in s.ops && s.ops[k].Starting? && s.ops[k].groupMode && s.ops[k].own.keyed
    requires var id, own := s.ops[k].id, s.ops[k].own;
             && id in s.calls && s.calls[id].group && s.calls[id].receivers.None?
             && s.calls[id].update.Some? && s.calls[id].epoch.Some?
             && |s.calls[id].epoch.value.key| == RAW_KEY_BYTES
             && (own.hasUpdate ==> own.tx < s.calls[id].update.value.tx)
             && GoodRoster(d, s.calls[id].update.value.participants)
             && Unopposed(own, s.calls[id].epoch.value)
    ensures var id, own, s' := s.ops[k].id, s.ops[k].own, GroupControl.Run(d, s, [Resume(k), Resume(s.nextOp)]);
            var u, e := s.calls[id].update.value, s.calls[id].epoch.value;
            && s'.ops == s.ops - {k} && id in s'.calls && s'.calls[id].receivers == Some(s.nextReg)
            && s.nextReg !in s.regs && s.nextReg in s'.regs && s'.regs == s.regs[s.nextReg := s'.regs[s.nextReg]]
            && s'.regs[s.nextReg].tx == u.tx && EpochHeld(s'.regs[s.nextReg], e)
            && ActiveUnder(d, u.participants, own.active, own.fallback, s'.regs[s.nextReg].active)
  {
    hide GroupControl.Run, Publish, GoodRoster, ActiveUnder, EpochHeld, ApplyUpdate, ApplyEpoch, Unopposed, Inv;
    FreeOps(s);
    var op, n, s0 := s.ops[k], s.nextOp, s.(ops := s.ops - {k});
    var id, own := op.id, op.own;
    var c := s.calls[id];
    var u, e := c.update.value, c.epoch.value;
    TakenOut(s, k);
    BuiltFurther(d, own, u, e);
    var built := ApplyEpoch(ApplyUpdate(d, own, u), e);
    var last := Snapshotted(id, built, c.instance, u, e);
    StartSection(d, s0, id, own);
    RunTwo(d, s, Resume(k), Resume(n));
    assert Step(d, s, Resume(k)) == Spawn(s0, last);
    ResumeSpawned(d, s0, last);
    SnapshotPublished(d, s0.(nextOp := n + 1), id, built);
    PublishFacts(s0.(nextOp := n + 1), id, built);
  }

  lemma TakenOut(s: Engine, k: nat)
    requires Inv(s) && k in s.ops
    ensures OpOk(s, s.ops[k])
  {
  }

  lemma PublishFacts(s: Engine, id: string, own: Ledger)
    requires id in s.calls
    ensures var p := Publish(s, id, own);
            && p.ops == s.ops && p.regs == s.regs[s.nextReg := own]
            && p.calls.Keys == s.calls.Keys && p.calls[id].receivers == Some(s.nextReg)
  {
    hide Agrees, Undisturbed;
  }

  /** No other key waits or is installed for this epoch's transaction. */
  ghost predicate Unopposed(l: Ledger, e: Epoch) {
    && (e.tx in l.pending ==> l.pending[e.tx] == e.key)
    && (l.installed.Some? && l.installed.value.tx == e.tx ==> l.installed.value.key == e.key)
  }

  lemma UnopposedLater(d: Derivation, l: Ledger, u: Update, e: Epoch)
    requires Ordered(l) && Unopposed(l, e)
    ensures Unopposed(ApplyUpdate(d, l, u), e)
  {
    hide Admissible, NextActive;
  }

  lemma BuiltFurther(d: Derivation, l: Ledger, u: Update, e: Epoch)
    requires Ordered(l) && l.keyed && (l.hasUpdate ==> l.tx < u.tx) && GoodRoster(d, u.participants)
    requires Unopposed(l, e) && |e.key| == RAW_KEY_BYTES
    ensures var l' := ApplyUpdate(d, l, u);
            && Accepts(d, l, u) && OfferEpoch(l', e).Accepted?
            && ApplyEpoch(l', e).tx == u.tx && EpochHeld(ApplyEpoch(l', e), e)
            && ActiveUnder(d, u.participants, l.active, l.fallback, ApplyEpoch(l', e).active)
  {
    hide GoodRoster, ActiveUnder, Admissible, NextActive, EpochHeld, OfferEpoch, ApplyEpoch, Select;
    AcceptsExactly(d, l, u);
    CommitActivates(d, l, u);
    CommitKeepsOrder(d, l, u);
    UnopposedLater(d, l, u, e);
    RegistryHolds(ApplyUpdate(d, l, u), e);
  }

  lemma StartSection(d: Derivation, s: Engine, id: string, own: Ledger)
    requires id in s.calls && s.calls[id].group && s.calls[id].update.Some? && s.calls[id].epoch.Some?
    requires |s.calls[id].epoch.value.key| == RAW_KEY_BYTES
    requires Accepts(d, own, s.calls[id].update.value)
    requires OfferEpoch(ApplyUpdate(d, own, s.calls[id].update.value), s.calls[id].epoch.value).Accepted?
    ensures var c, u, e := s.calls[id], s.calls[id].update.value, s.calls[id].epoch.value;
            Continue(d, s, Starting(id, true, own)) ==
            Spawn(s, Snapshotted(id, ApplyEpoch(ApplyUpdate(d, own, u), e), c.instance, u, e))
  {
    hide ApplyUpdate, ApplyEpoch, OfferEpoch, Accepts, Stale;
  }

  /** A call that ends is gone, and its registry keeps no receiver, key or epoch. */
  lemma FinishAlone(d: Derivation, s: Engine, id: string)
    requires Inv(s) && id != "" && id in s.calls
    ensures var s' := GroupControl.Run(d, s, [Finish(id), Resume(s.nextOp)]);
            && s'.ops == s.ops && s'.calls == s.calls - {id}
            && (s.calls[id].receivers.None? ==> s'.regs == s.regs)
            && (s.calls[id].receivers.Some? ==>
                  var r := s.calls[id].receivers.value;
                  && r in s.regs && r in s'.regs && s'.regs == s.regs[r := s'.regs[r]]
                  && s'.regs[r].active == {} && !s'.regs[r].keyed
                  && s'.regs[r].installed == None && s'.regs[r].pending == map[])
  {
    RunTwo(d, s, Finish(id), Resume(s.nextOp));
    assert s.nextOp !in s.ops && CallOk(s, id);
    hide Inv;
    assert s.calls[id].receivers.Some? ==> Step(d, s, Finish(id)).ops - {s.nextOp} == s.ops;
  }

  /** A call is created once, bare: without an update, an epoch or a registry, and no other changes. */
  lemma CreateAlone(d: Derivation, s: Engine, id: string, group: bool)
    ensures var s' := Step(d, s, Create(id, group));
            && s'.regs == s.regs && s'.ops == s.ops
            && if id in s.calls then s'.calls == s.calls
               else s'.calls == s.calls[id := Call(s.nextInstance, group, None, None, None, false)]
  {
  }
}
