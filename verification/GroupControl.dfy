/**
  The engine side of group control: roster updates and key epochs reach a call in two critical
  sections of the engine lock, with one of the registry's in between, while calls come and go and
  media startup publishes the call's registry.  Every critical section is one atomic step of a
  state machine; a registry is the ledger its object is proved to follow.
 */
module GroupControl {
  import opened Common
  import opened GroupLedger

  /** instance tells successive calls under one id apart.  settled is a history variable: it
      records that the registry was published in agreement with the call and past no update or
      epoch in flight that could still overtake it. */
  datatype Call = Call(
    instance: nat,
    group: bool,
    update: Option<Update>,
    epoch: Option<Epoch>,
    receivers: Option<nat>,
    settled: bool)

  /** An operation between two of its critical sections. */
  datatype Op =
    | UpdateChosen(id: string, u: Update, receivers: Option<nat>)
    | UpdateApplied(id: string, u: Update, receivers: Option<nat>)
    | EpochChosen(id: string, e: Epoch, receivers: Option<nat>)
    | EpochApplied(id: string, e: Epoch, receivers: Option<nat>)
    | Clearing(reg: nat)
    | Starting(id: string, groupMode: bool, own: Ledger)
    | Snapshotted(id: string, own: Ledger, instance: nat, u: Update, e: Epoch)
  {
    /** An update or epoch on its way into this call. */
    predicate Carries(callId: string) {
      (UpdateChosen? || UpdateApplied? || EpochChosen? || EpochApplied?) && id == callId
    }
  }

  datatype Engine = Engine(
    calls: map<string, Call>,
    regs: map<nat, Ledger>,
    homes: map<nat, string>,
    ops: map<nat, Op>,
    nextInstance: nat,
    nextReg: nat,
    nextOp: nat)

  const IDLE := Engine(map[], map[], map[], map[], 0, 0, 0)

  datatype Action =
    | Create(callId: string, group: bool)
    | BeginUpdate(callId: string, update: Update)
    | BeginEpoch(callId: string, epoch: Epoch)
    | Finish(callId: string)
    | StartMedia(callId: string, fallback: string)
    | Resume(op: nat)

  function Spawn(s: Engine, op: Op): Engine {
    s.(ops := s.ops[s.nextOp := op], nextOp := s.nextOp + 1)
  }

  /** An update older than the stored one is dropped at both ends. */
  function UpdateIsNew(c: Call, u: Update): bool {
    c.update.None? || c.update.value.tx < u.tx
  }

  /** An epoch not newer than the stored one is dropped or, with another key, refused. */
  function EpochIsNew(c: Call, e: Epoch): bool {
    c.epoch.None? || c.epoch.value.tx < e.tx
  }

  ghost function Step(d: Derivation, s: Engine, a: Action): Engine {
    match a
    case Create(id, group) =>
      if id in s.calls then s
      else
        var c := Call(s.nextInstance, group, None, None, None, false);
        s.(calls := s.calls[id := c], nextInstance := s.nextInstance + 1)
    case BeginUpdate(id, u) =>
      if id == "" || id !in s.calls || !UpdateIsNew(s.calls[id], u) then s
      else Spawn(s, UpdateChosen(id, u, s.calls[id].receivers))
    case BeginEpoch(id, e) =>
      if id == "" || e.tx == 0 || |e.key| != RAW_KEY_BYTES then s
      else if id !in s.calls || !s.calls[id].group || !EpochIsNew(s.calls[id], e) then s
      else Spawn(s, EpochChosen(id, e, s.calls[id].receivers))
    case Finish(id) =>
      if id == "" || id !in s.calls then s
      else
        var s' := s.(calls := s.calls - {id});
        if s.calls[id].receivers.Some? then Spawn(s', Clearing(s.calls[id].receivers.value)) else s'
    case StartMedia(id, fallback) =>
      if id !in s.calls || s.calls[id].receivers.Some? then s
      else Spawn(s, Starting(id, s.calls[id].group, Fresh(fallback)))
    case Resume(k) =>
      if k !in s.ops then s else Continue(d, s.(ops := s.ops - {k}), s.ops[k])
  }

  /** Runs the next critical section of an operation taken out of the table. */
  ghost function Continue(d: Derivation, s: Engine, op: Op): Engine {
    match op
    case UpdateChosen(id, u, None) => Spawn(s, UpdateApplied(id, u, None))
    case UpdateChosen(id, u, Some(r)) =>
      if r !in s.regs then s
      else
        var l := s.regs[r];
        if Stale(l, u) || Accepts(d, l, u)
        then Spawn(s.(regs := s.regs[r := ApplyUpdate(d, l, u)]), UpdateApplied(id, u, Some(r)))
        else s
    case UpdateApplied(id, u, rs) =>
      if id !in s.calls then (if rs.Some? then Spawn(s, Clearing(rs.value)) else s)
      else if !UpdateIsNew(s.calls[id], u) then s
      else s.(calls := s.calls[id := s.calls[id].(group := true, update := Some(u))])
    case EpochChosen(id, e, None) => Spawn(s, EpochApplied(id, e, None))
    case EpochChosen(id, e, Some(r)) =>
      if r !in s.regs || OfferEpoch(s.regs[r], e).Refused? then s
      else Spawn(s.(regs := s.regs[r := ApplyEpoch(s.regs[r], e)]), EpochApplied(id, e, Some(r)))
    case EpochApplied(id, e, _) =>
      if id !in s.calls || !s.calls[id].group || !EpochIsNew(s.calls[id], e) then s
      else s.(calls := s.calls[id := s.calls[id].(epoch := Some(e))])
    case Clearing(r) =>
      if r !in s.regs then s else s.(regs := s.regs[r := Cleared(s.regs[r])])
    case Starting(id, groupMode, own) =>
      if id !in s.calls then s
      else
        var c := s.calls[id];
        if !groupMode then (if c.receivers.Some? then s else Publish(s, id, own))
        else if !c.group || c.update.None? || c.epoch.None? || |c.epoch.value.key| != RAW_KEY_BYTES then s
        else
          var l := ApplyUpdate(d, own, c.update.value);
          if !Stale(own, c.update.value) && !Accepts(d, own, c.update.value) then s
          else if OfferEpoch(l, c.epoch.value).Refused? then s
          else Spawn(s, Snapshotted(id, ApplyEpoch(l, c.epoch.value), c.instance, c.update.value, c.epoch.value))
    case Snapshotted(id, own, _, u, e) =>
      if id !in s.calls || !s.calls[id].group then s
      else
        var c := s.calls[id];
        if c.receivers.Some? then s
        else if c.update.Some? && c.update.value.tx <= u.tx && (if c.epoch.Some? then c.epoch.value.tx else 0) <= e.tx
        then Publish(s, id, own)
        else Spawn(s, Starting(id, true, own))
  }

  /** Makes a started registry the call's. */
  ghost function Publish(s: Engine, id: string, own: Ledger): Engine
    requires id in s.calls
  {
    var c := s.calls[id];
    s.(calls := s.calls[id := c.(receivers := Some(s.nextReg), settled := Agrees(c, own) && Undisturbed(s, id, own))],
       regs := s.regs[s.nextReg := own], homes := s.homes[s.nextReg := id], nextReg := s.nextReg + 1)
  }

  /** The registry holds this very epoch pending or installed, or has a newer one installed. */
  ghost predicate Covers(l: Ledger, e: Epoch) {
    || (e.tx in l.pending && l.pending[e.tx] == e.key)
    || (l.installed.Some? && (e.tx < l.installed.value.tx || e == l.installed.value))
  }

  /** The registry is not behind the call. */
  ghost predicate Agrees(c: Call, l: Ledger) {
    && (c.update.Some? ==> l.hasUpdate && c.update.value.tx <= l.tx)
    && (c.epoch.Some? ==> Covers(l, c.epoch.value))
  }

  /** The call drops the update, or the registry has one at least as new. */
  ghost predicate UpdateHarmless(c: Call, l: Ledger, u: Update) {
    UpdateIsNew(c, u) ==> l.hasUpdate && u.tx <= l.tx
  }

  /** The call drops the epoch, or the registry covers it. */
  ghost predicate EpochHarmless(c: Call, l: Ledger, e: Epoch) {
    EpochIsNew(c, e) ==> Covers(l, e)
  }

  ghost predicate Harmless(c: Call, l: Ledger, op: Op) {
    match op
    case UpdateChosen(_, u, _) => UpdateHarmless(c, l, u)
    case UpdateApplied(_, u, _) => UpdateHarmless(c, l, u)
    case EpochChosen(_, e, _) => EpochHarmless(c, l, e)
    case EpochApplied(_, e, _) => EpochHarmless(c, l, e)
    case _ => true
  }

  /** No update or epoch on its way into the call would take it past this registry. */
  ghost predicate Undisturbed(s: Engine, id: string, l: Ledger)
    requires id in s.calls
  {
    forall k :: k in s.ops && s.ops[k].Carries(id) ==> Harmless(s.calls[id], l, s.ops[k])
  }

  // ----- what the registry keeps covering -----

  lemma OfferCovers(l: Ledger, e: Epoch)
    requires OfferEpoch(l, e).Accepted?
    ensures Covers(ApplyEpoch(l, e), e)
  {
  }

  lemma CoversKept(d: Derivation, l: Ledger, u: Update, e: Epoch, other: Epoch)
    requires Ordered(l) && Covers(l, e)
    ensures Covers(ApplyUpdate(d, l, u), e)
    ensures Covers(ApplyEpoch(l, other), e)
  {
    var n := Newest(l.pending, u.tx);
    if e.tx in l.pending && e.tx <= u.tx {
      assert n.Some?;
    }
  }

  lemma AgreesKept(d: Derivation, c: Call, l: Ledger, u: Update, e: Epoch)
    requires Ordered(l) && Agrees(c, l)
    ensures Agrees(c, ApplyUpdate(d, l, u)) && Agrees(c, ApplyEpoch(l, e))
  {
    if c.epoch.Some? {
      CoversKept(d, l, u, c.epoch.value, e);
    }
  }

  // ----- the invariant -----

  ghost predicate Homed(s: Engine, r: nat, id: string) {
    r in s.regs && r in s.homes && s.homes[r] == id
  }

  /** A call has moved on from a snapshot of its update and epoch. */
  ghost predicate Since(c: Call, u: Update, e: Epoch) {
    && c.update.Some? && u.tx <= c.update.value.tx
    && c.epoch.Some? && (e.tx < c.epoch.value.tx || e == c.epoch.value)
  }

  ghost predicate OpOk(s: Engine, op: Op) {
    match op
    case UpdateChosen(id, _, rs) => id != "" && (rs.Some? ==> Homed(s, rs.value, id))
    case UpdateApplied(id, _, rs) => id != "" && (rs.Some? ==> Homed(s, rs.value, id))
    case EpochChosen(id, _, rs) => id != "" && (rs.Some? ==> Homed(s, rs.value, id))
    case EpochApplied(id, _, rs) => id != "" && (rs.Some? ==> Homed(s, rs.value, id))
    case Clearing(r) => r in s.regs && forall id :: id in s.calls ==> s.calls[id].receivers != Some(r)
    case Starting(_, _, own) => Ordered(own)
    case Snapshotted(id, own, instance, u, e) =>
      && Ordered(own) && own.hasUpdate && u.tx <= own.tx && Covers(own, e) && instance < s.nextInstance
      && (id in s.calls && s.calls[id].instance == instance ==> Since(s.calls[id], u, e))
  }

  /** In a settled call, every operation on its way will meet the call's registry or cannot take
      the call past it. */
  ghost predicate Met(c: Call, l: Ledger, op: Op) {
    match op
    case UpdateChosen(_, u, rs) => rs == c.receivers || UpdateHarmless(c, l, u)
    case EpochChosen(_, e, rs) => rs == c.receivers || EpochHarmless(c, l, e)
    case _ => Harmless(c, l, op)
  }

  ghost predicate CallOk(s: Engine, id: string)
    requires id in s.calls
  {
    var c := s.calls[id];
    && c.instance < s.nextInstance && (c.update.Some? ==> c.group)
    && (c.receivers.Some? ==> Homed(s, c.receivers.value, id))
    && (c.settled ==>
          && c.receivers.Some? && Agrees(c, s.regs[c.receivers.value])
          && forall k :: k in s.ops && s.ops[k].Carries(id) ==> Met(c, s.regs[c.receivers.value], s.ops[k]))
  }

  ghost predicate Inv(s: Engine) {
    && (forall r :: r in s.regs ==> r < s.nextReg && Ordered(s.regs[r]))
    && (forall k :: k in s.ops ==> k < s.nextOp && OpOk(s, s.ops[k]))
    && (forall id :: id in s.calls ==> CallOk(s, id))
  }

  /** What happens to one call that goes on living: its update and epoch only move forward, and an
      epoch is never replaced by another key for the same transaction. */
  ghost predicate Later(c: Call, c': Call) {
    && c'.instance == c.instance
    && (c.update.Some? ==> c'.update.Some? && (c.update.value.tx < c'.update.value.tx || c'.update == c.update))
    && (c.epoch.Some? ==> c'.epoch.Some? && (c.epoch.value.tx < c'.epoch.value.tx || c'.epoch == c.epoch))
    && (c.receivers.Some? ==> c'.receivers == c.receivers && c'.settled == c.settled)
  }

  /** One step: surviving calls move forward, and only Create brings a call into being. */
  ghost predicate Advances(s: Engine, s': Engine) {
    && s.nextInstance <= s'.nextInstance
    && (forall id :: id in s'.calls ==>
          if id in s.calls then Later(s.calls[id], s'.calls[id])
          else s'.calls[id].instance == s.nextInstance < s'.nextInstance)
  }

  lemma ContinueAdvances(d: Derivation, s: Engine, op: Op)
    ensures Advances(s, Continue(d, s, op))
    ensures Continue(d, s, op).calls.Keys <= s.calls.Keys
  {
    hide ApplyUpdate, ApplyEpoch, OfferEpoch, Accepts, Stale, Agrees, Undisturbed;
  }

  lemma StepAdvances(d: Derivation, s: Engine, a: Action)
    ensures Advances(s, Step(d, s, a))
    ensures !a.Create? ==> Step(d, s, a).calls.Keys <= s.calls.Keys
  {
    hide Continue;
    if a.Resume? && a.op in s.ops {
      ContinueAdvances(d, s.(ops := s.ops - {a.op}), s.ops[a.op]);
    }
  }

  /** A changed ledger of one registry keeps every other obligation. */
  lemma RegistryMoves(s: Engine, s': Engine, r: nat, l: Ledger)
    requires Inv(s) && r in s.regs && Ordered(l) && s' == s.(regs := s.regs[r := l])
    requires forall c: Call :: Agrees(c, s.regs[r]) ==> Agrees(c, l)
    requires forall e: Epoch :: Covers(s.regs[r], e) ==> Covers(l, e)
    requires s.regs[r].hasUpdate ==> l.hasUpdate && s.regs[r].tx <= l.tx
    ensures Inv(s')
  {
    forall k | k in s'.ops ensures k < s'.nextOp && OpOk(s', s'.ops[k]) {
      assert OpOk(s, s.ops[k]);
    }
    forall id | id in s'.calls ensures CallOk(s', id) {
      assert CallOk(s, id);
    }
  }

  lemma SpawnKeeps(s: Engine, op: Op)
    requires Inv(s) && OpOk(s, op)
    requires forall id :: id in s.calls && s.calls[id].settled && op.Carries(id) ==>
               Met(s.calls[id], s.regs[s.calls[id].receivers.value], op)
    ensures Inv(Spawn(s, op))
  {
    var s' := Spawn(s, op);
    forall k | k in s'.ops ensures k < s'.nextOp && OpOk(s', s'.ops[k]) {
      if k != s.nextOp {
        assert OpOk(s, s.ops[k]);
      }
    }
    forall id | id in s'.calls ensures CallOk(s', id) {
      assert CallOk(s, id);
    }
  }

  /** An operation taken out of the table, as its own invariant sees it. */
  ghost predicate InHand(s: Engine, op: Op) {
    && OpOk(s, op)
    && forall id :: id in s.calls && s.calls[id].settled && op.Carries(id) ==>
         s.calls[id].receivers.Some? && s.calls[id].receivers.value in s.regs &&
         Met(s.calls[id], s.regs[s.calls[id].receivers.value], op)
  }

  lemma TakeOutKeeps(s: Engine, k: nat)
    requires Inv(s) && k in s.ops
    ensures Inv(s.(ops := s.ops - {k})) && InHand(s.(ops := s.ops - {k}), s.ops[k])
  {
    var s' := s.(ops := s.ops - {k});
    assert OpOk(s, s.ops[k]);
    forall j | j in s'.ops ensures j < s'.nextOp && OpOk(s', s'.ops[j]) {
      assert OpOk(s, s.ops[j]);
    }
    forall id | id in s'.calls ensures CallOk(s', id) {
      assert CallOk(s, id);
    }
  }

  /** Storing a newer update or epoch in a call. */
  lemma CallMoves(s: Engine, id: string, c': Call)
    requires Inv(s) && id in s.calls && Later(s.calls[id], c') && c'.receivers == s.calls[id].receivers
    requires c'.settled == s.calls[id].settled
    requires c'.update.Some? ==> c'.group
    requires c'.settled ==> Agrees(c', s.regs[c'.receivers.value])
    ensures Inv(s.(calls := s.calls[id := c']))
  {
    var s' := s.(calls := s.calls[id := c']);
    assert CallOk(s, id);
    forall k | k in s'.ops ensures k < s'.nextOp && OpOk(s', s'.ops[k]) {
      assert OpOk(s, s.ops[k]);
    }
    forall j | j in s'.calls ensures CallOk(s', j) {
      assert CallOk(s, j);
    }
  }

  lemma PublishKeeps(s: Engine, id: string, own: Ledger)
    requires Inv(s) && id in s.calls && s.calls[id].receivers.None? && Ordered(own)
    ensures Inv(Publish(s, id, own))
  {
    var s' := Publish(s, id, own);
    assert s.nextReg !in s.regs;
    forall k | k in s'.ops ensures k < s'.nextOp && OpOk(s', s'.ops[k]) {
      assert OpOk(s, s.ops[k]);
    }
    forall j | j in s'.calls ensures CallOk(s', j) {
      assert CallOk(s, j);
    }
  }

  lemma FinishKeeps(d: Derivation, s: Engine, id: string)
    requires Inv(s) && id in s.calls
    ensures Inv(Step(d, s, Finish(id)))
  {
    var c := s.calls[id];
    assert CallOk(s, id);
    var s' := s.(calls := s.calls - {id});
    forall k | k in s'.ops ensures k < s'.nextOp && OpOk(s', s'.ops[k]) {
      assert OpOk(s, s.ops[k]);
    }
    forall j | j in s'.calls ensures CallOk(s', j) && (c.receivers.Some? ==> s'.calls[j].receivers != c.receivers) {
      assert CallOk(s, j);
    }
    if c.receivers.Some? {
      SpawnKeeps(s', Clearing(c.receivers.value));
    }
  }

  lemma CreateKeeps(d: Derivation, s: Engine, id: string, group: bool)
    requires Inv(s)
    ensures Inv(Step(d, s, Create(id, group)))
  {
    var s' := Step(d, s, Create(id, group));
    forall k | k in s'.ops ensures k < s'.nextOp && OpOk(s', s'.ops[k]) {
      assert OpOk(s, s.ops[k]);
    }
    forall j | j in s'.calls ensures CallOk(s', j) {
      if j in s.calls {
        assert CallOk(s, j);
      }
    }
  }

  lemma UpdateMeets(d: Derivation, s: Engine, id: string, u: Update, r: nat)
    requires Inv(s) && InHand(s, UpdateChosen(id, u, Some(r)))
    ensures Inv(Continue(d, s, UpdateChosen(id, u, Some(r))))
  {
    var l := s.regs[r];
    var l' := ApplyUpdate(d, l, u);
    if Stale(l, u) || Accepts(d, l, u) {
      var s' := s.(regs := s.regs[r := l']);
      if Accepts(d, l, u) {
        CommitKeepsOrder(d, l, u);
      }
      forall c: Call | Agrees(c, l) ensures Agrees(c, l') {
        AgreesKept(d, c, l, u, Epoch(0, []));
      }
      forall e: Epoch | Covers(l, e) ensures Covers(l', e) {
        CoversKept(d, l, u, e, e);
      }
      RegistryMoves(s, s', r, l');
      SpawnKeeps(s', UpdateApplied(id, u, Some(r)));
    }
  }

  lemma EpochMeets(d: Derivation, s: Engine, id: string, e: Epoch, r: nat)
    requires Inv(s) && InHand(s, EpochChosen(id, e, Some(r)))
    ensures Inv(Continue(d, s, EpochChosen(id, e, Some(r))))
  {
    var l := s.regs[r];
    if OfferEpoch(l, e).Accepted? {
      var l' := ApplyEpoch(l, e);
      var s' := s.(regs := s.regs[r := l']);
      EpochKeepsOrder(l, e);
      OfferCovers(l, e);
      forall c: Call | Agrees(c, l) ensures Agrees(c, l') {
        AgreesKept(d, c, l, Update(0, []), e);
      }
      forall x: Epoch | Covers(l, x) ensures Covers(l', x) {
        CoversKept(d, l, Update(0, []), x, e);
      }
      RegistryMoves(s, s', r, l');
      SpawnKeeps(s', EpochApplied(id, e, Some(r)));
    }
  }

  /** No live call refers to a registry whose home call is gone. */
  lemma HomelessIsUnused(s: Engine, r: nat, id: string)
    requires Inv(s) && Homed(s, r, id) && id !in s.calls
    ensures OpOk(s, Clearing(r))
  {
    forall j | j in s.calls ensures s.calls[j].receivers != Some(r) {
      assert CallOk(s, j);
    }
  }

  lemma ClearKeeps(s: Engine, r: nat)
    requires Inv(s) && OpOk(s, Clearing(r))
    ensures Inv(s.(regs := s.regs[r := Cleared(s.regs[r])]))
  {
    var s' := s.(regs := s.regs[r := Cleared(s.regs[r])]);
    forall k | k in s'.ops ensures k < s'.nextOp && OpOk(s', s'.ops[k]) {
      assert OpOk(s, s.ops[k]);
    }
    forall j | j in s'.calls ensures CallOk(s', j) {
      assert CallOk(s, j);
    }
  }

  lemma SnapshotKeeps(d: Derivation, s: Engine, id: string, groupMode: bool, own: Ledger)
    requires Inv(s) && Ordered(own)
    ensures Inv(Continue(d, s, Starting(id, groupMode, own)))
  {
    if id in s.calls {
      var c := s.calls[id];
      assert CallOk(s, id);
      if !groupMode {
        if c.receivers.None? {
          PublishKeeps(s, id, own);
        }
      } else if c.group && c.update.Some? && c.epoch.Some? && |c.epoch.value.key| == RAW_KEY_BYTES {
        var u, e := c.update.value, c.epoch.value;
        var l := ApplyUpdate(d, own, u);
        if (Stale(own, u) || Accepts(d, own, u)) && OfferEpoch(l, e).Accepted? {
          if Accepts(d, own, u) {
            CommitKeepsOrder(d, own, u);
          }
          EpochKeepsOrder(l, e);
          OfferCovers(l, e);
          SpawnKeeps(s, Snapshotted(id, ApplyEpoch(l, e), c.instance, u, e));
        }
      }
    }
  }

  lemma ContinueKeeps(d: Derivation, s: Engine, op: Op)
    requires Inv(s) && InHand(s, op)
    ensures Inv(Continue(d, s, op))
  {
    match op
    case UpdateChosen(id, u, rs) =>
      if rs.Some? { UpdateMeets(d, s, id, u, rs.value); } else { SpawnKeeps(s, UpdateApplied(id, u, None)); }
    case UpdateApplied(id, u, rs) =>
      if id in s.calls {
        if UpdateIsNew(s.calls[id], u) {
          CallMoves(s, id, s.calls[id].(group := true, update := Some(u)));
        }
      } else if rs.Some? {
        HomelessIsUnused(s, rs.value, id);
        SpawnKeeps(s, Clearing(rs.value));
      }
    case EpochChosen(id, e, rs) =>
      if rs.Some? { EpochMeets(d, s, id, e, rs.value); } else { SpawnKeeps(s, EpochApplied(id, e, None)); }
    case EpochApplied(id, e, rs) =>
      if id in s.calls && s.calls[id].group && EpochIsNew(s.calls[id], e) {
        CallMoves(s, id, s.calls[id].(epoch := Some(e)));
      }
    case Clearing(r) => ClearKeeps(s, r);
    case Starting(id, groupMode, own) => SnapshotKeeps(d, s, id, groupMode, own);
    case Snapshotted(id, own, _, u, e) =>
      if id in s.calls && s.calls[id].group && s.calls[id].receivers.None? {
        PublishKeeps(s, id, own);
        SpawnKeeps(s, Starting(id, true, own));
      }
  }

  /** Every step of every interleaving keeps the invariant. */
  lemma StepKeepsInv(d: Derivation, s: Engine, a: Action)
    requires Inv(s)
    ensures Inv(Step(d, s, a))
  {
    match a
    case Create(id, group) => CreateKeeps(d, s, id, group);
    case BeginUpdate(id, u) =>
      if id != "" && id in s.calls {
        assert CallOk(s, id);
        SpawnKeeps(s, UpdateChosen(id, u, s.calls[id].receivers));
      }
    case BeginEpoch(id, e) =>
      if id != "" && id in s.calls {
        assert CallOk(s, id);
        SpawnKeeps(s, EpochChosen(id, e, s.calls[id].receivers));
      }
    case Finish(id) => if id in s.calls { FinishKeeps(d, s, id); }
    case StartMedia(id, fallback) =>
      if id in s.calls {
        SpawnKeeps(s, Starting(id, s.calls[id].group, Fresh(fallback)));
      }
    case Resume(k) =>
      if k in s.ops {
        TakeOutKeeps(s, k);
        ContinueKeeps(d, s.(ops := s.ops - {k}), s.ops[k]);
      }
  }

  // ----- runs -----

  ghost function Run(d: Derivation, s: Engine, acts: seq<Action>): Engine {
    if acts == [] then s else Step(d, Run(d, s, acts[..|acts| - 1]), acts[|acts| - 1])
  }

  /** Every reachable state: a settled call's registry is never behind the call, and it holds the
      call's very epoch pending or installed, or a newer one installed. */
  lemma {:induction false} SettledCallsAgree(d: Derivation, acts: seq<Action>)
    ensures Inv(Run(d, IDLE, acts))
    ensures var s := Run(d, IDLE, acts);
            forall id :: id in s.calls && s.calls[id].settled ==>
              s.calls[id].receivers.Some? && s.calls[id].receivers.value in s.regs &&
              Agrees(s.calls[id], s.regs[s.calls[id].receivers.value])
    decreases |acts|
  {
    if acts != [] {
      SettledCallsAgree(d, acts[..|acts| - 1]);
      StepKeepsInv(d, Run(d, IDLE, acts[..|acts| - 1]), acts[|acts| - 1]);
    }
    var s := Run(d, IDLE, acts);
    forall id | id in s.calls ensures CallOk(s, id) {
    }
  }

  /** Over any run from any state, a call that is still the same call has only moved forward. */
  lemma {:induction false} RunMovesForward(d: Derivation, s: Engine, acts: seq<Action>, id: string)
    requires id in s.calls && s.calls[id].instance < s.nextInstance
    ensures s.nextInstance <= Run(d, s, acts).nextInstance
    ensures id in Run(d, s, acts).calls && Run(d, s, acts).calls[id].instance == s.calls[id].instance ==>
            Later(s.calls[id], Run(d, s, acts).calls[id])
    decreases |acts|
  {
    if acts != [] {
      var front := acts[..|acts| - 1];
      RunMovesForward(d, s, front, id);
      StepAdvances(d, Run(d, s, front), acts[|acts| - 1]);
    }
  }

  /** A call that has ended stays ended however its late updates and epochs interleave: only
      Create brings the id back. */
  lemma {:induction false} EndedStaysEnded(d: Derivation, s: Engine, acts: seq<Action>, id: string)
    requires id !in s.calls
    requires forall i :: 0 <= i < |acts| ==> !(acts[i].Create? && acts[i].callId == id)
    ensures id !in Run(d, s, acts).calls
    decreases |acts|
  {
    if acts != [] {
      var front, last := acts[..|acts| - 1], acts[|acts| - 1];
      EndedStaysEnded(d, s, front, id);
      StepAdvances(d, Run(d, s, front), last);
    }
  }

  // ----- exactly which publications never fall behind -----

  lemma {:induction false} RunKeepsInv(d: Derivation, s: Engine, acts: seq<Action>)
    requires Inv(s)
    ensures Inv(Run(d, s, acts))
    decreases |acts|
  {
    hide Inv, Step;
    if acts != [] {
      RunKeepsInv(d, s, acts[..|acts| - 1]);
      StepKeepsInv(d, Run(d, s, acts[..|acts| - 1]), acts[|acts| - 1]);
    }
  }

  /** The call still lives and its registry is behind its update or does not cover its epoch. */
  ghost predicate Behind(s: Engine, id: string, instance: nat, r: nat) {
    id in s.calls && s.calls[id].instance == instance && !(r in s.regs && Agrees(s.calls[id], s.regs[r]))
  }

  /** Some continuation makes the registry fall behind. */
  ghost predicate CanFallBehind(d: Derivation, s: Engine, id: string, instance: nat, r: nat) {
    exists acts :: Behind(Run(d, s, acts), id, instance, r)
  }

  lemma IsBehind(d: Derivation, s: Engine, id: string, instance: nat, r: nat)
    requires Behind(s, id, instance, r)
    ensures CanFallBehind(d, s, id, instance, r)
  {
    assert Behind(Run(d, s, []), id, instance, r);
  }

  lemma {:induction false} RunCons(d: Derivation, s: Engine, a: Action, acts: seq<Action>)
    ensures Run(d, s, [a] + acts) == Run(d, Step(d, s, a), acts)
    decreases |acts|
  {
    hide Step;
    if acts == [] {
      assert [a] + acts == [a] && [a][..0] == [];
    } else {
      var front := acts[..|acts| - 1];
      assert ([a] + acts)[..|acts|] == [a] + front;
      RunCons(d, s, a, front);
    }
  }

  lemma AfterStep(d: Derivation, s: Engine, a: Action, id: string, instance: nat, r: nat)
    requires CanFallBehind(d, Step(d, s, a), id, instance, r)
    ensures CanFallBehind(d, s, id, instance, r)
  {
    hide Step, Run, Behind;
    var acts :| Behind(Run(d, Step(d, s, a), acts), id, instance, r);
    RunCons(d, s, a, acts);
    assert Behind(Run(d, s, [a] + acts), id, instance, r);
  }

  /** A call whose registry r has this ledger, with an operation on its way to the call. */
  ghost predicate Poised(s: Engine, id: string, r: nat, k: nat, op: Op) {
    && id in s.calls && id != "" && s.calls[id].receivers == Some(r) && (s.calls[id].update.Some? ==> s.calls[id].group)
    && r in s.regs && Ordered(s.regs[r])
    && k in s.ops && k < s.nextOp && s.ops[k] == op
  }

  lemma UpdateOvertakes(d: Derivation, s: Engine, id: string, r: nat, k: nat, u: Update, rs: Option<nat>)
    requires Poised(s, id, r, k, UpdateApplied(id, u, rs)) && !UpdateHarmless(s.calls[id], s.regs[r], u)
    ensures CanFallBehind(d, s, id, s.calls[id].instance, r)
  {
    IsBehind(d, Step(d, s, Resume(k)), id, s.calls[id].instance, r);
    AfterStep(d, s, Resume(k), id, s.calls[id].instance, r);
  }

  /** Its own registry, another one than r, lets the operation through. */
  ghost predicate Passes(d: Derivation, s: Engine, op: Op) {
    match op
    case UpdateChosen(_, u, Some(q)) => q in s.regs && (Stale(s.regs[q], u) || Accepts(d, s.regs[q], u))
    case EpochChosen(_, e, Some(q)) => q in s.regs && OfferEpoch(s.regs[q], e).Accepted?
    case _ => true
  }

  lemma ChosenUpdateOvertakes(d: Derivation, s: Engine, id: string, r: nat, k: nat, u: Update, rs: Option<nat>)
    requires Poised(s, id, r, k, UpdateChosen(id, u, rs)) && rs != Some(r) && Passes(d, s, UpdateChosen(id, u, rs))
    requires !UpdateHarmless(s.calls[id], s.regs[r], u)
    ensures CanFallBehind(d, s, id, s.calls[id].instance, r)
  {
    hide ApplyUpdate;
    var s' := Step(d, s, Resume(k));
    assert s'.ops[s.nextOp] == UpdateApplied(id, u, rs) && s'.regs[r] == s.regs[r];
    UpdateOvertakes(d, s', id, r, s.nextOp, u, rs);
    AfterStep(d, s, Resume(k), id, s.calls[id].instance, r);
  }

  /** The smallest update there is makes a call a group call and covers no epoch. */
  const FIRST := Update(0, [])

  lemma FirstUpdateCoversNothing(d: Derivation, l: Ledger, e: Epoch)
    requires Ordered(l) && !Covers(l, e)
    ensures Stale(l, FIRST) || Accepts(d, l, FIRST)
    ensures !Covers(ApplyUpdate(d, l, FIRST), e) && Ordered(ApplyUpdate(d, l, FIRST))
  {
    OrderedNeverConflicts(l, 0);
    if Accepts(d, l, FIRST) {
      CommitKeepsOrder(d, l, FIRST);
    }
  }

  lemma EpochOvertakesGroup(d: Derivation, s: Engine, id: string, r: nat, k: nat, e: Epoch, rs: Option<nat>)
    requires Poised(s, id, r, k, EpochApplied(id, e, rs)) && !EpochHarmless(s.calls[id], s.regs[r], e)
    requires s.calls[id].group
    ensures CanFallBehind(d, s, id, s.calls[id].instance, r)
  {
    IsBehind(d, Step(d, s, Resume(k)), id, s.calls[id].instance, r);
    AfterStep(d, s, Resume(k), id, s.calls[id].instance, r);
  }

  lemma EpochOvertakes(d: Derivation, s: Engine, id: string, r: nat, k: nat, e: Epoch, rs: Option<nat>)
    requires Poised(s, id, r, k, EpochApplied(id, e, rs)) && !EpochHarmless(s.calls[id], s.regs[r], e)
    ensures CanFallBehind(d, s, id, s.calls[id].instance, r)
  {
    if s.calls[id].group {
      EpochOvertakesGroup(d, s, id, r, k, e, rs);
    } else {
      FirstUpdateCoversNothing(d, s.regs[r], e);
      hide ApplyUpdate, Covers, Accepts, Stale;
      var n, instance := s.nextOp, s.calls[id].instance;
      var s1 := Step(d, s, BeginUpdate(id, FIRST));
      assert s1.ops[n] == UpdateChosen(id, FIRST, Some(r));
      var s2 := Step(d, s1, Resume(n));
      assert s2.ops[n + 1] == UpdateApplied(id, FIRST, Some(r)) && s2.regs[r] == ApplyUpdate(d, s.regs[r], FIRST);
      var s3 := Step(d, s2, Resume(n + 1));
      assert s3.calls[id] == s.calls[id].(group := true, update := Some(FIRST));
      EpochOvertakesGroup(d, s3, id, r, k, e, rs);
      AfterStep(d, s2, Resume(n + 1), id, instance, r);
      AfterStep(d, s1, Resume(n), id, instance, r);
      AfterStep(d, s, BeginUpdate(id, FIRST), id, instance, r);
    }
  }

  lemma ChosenEpochOvertakes(d: Derivation, s: Engine, id: string, r: nat, k: nat, e: Epoch, rs: Option<nat>)
    requires Poised(s, id, r, k, EpochChosen(id, e, rs)) && rs != Some(r) && Passes(d, s, EpochChosen(id, e, rs))
    requires !EpochHarmless(s.calls[id], s.regs[r], e)
    ensures CanFallBehind(d, s, id, s.calls[id].instance, r)
  {
    hide ApplyEpoch, OfferEpoch, Covers;
    var s' := Step(d, s, Resume(k));
    assert s'.ops[s.nextOp] == EpochApplied(id, e, rs) && s'.regs[r] == s.regs[r];
    EpochOvertakes(d, s', id, r, s.nextOp, e, rs);
    AfterStep(d, s, Resume(k), id, s.calls[id].instance, r);
  }

  lemma HarmfulOvertakes(d: Derivation, s: Engine, id: string, r: nat, k: nat)
    requires k in s.ops && s.ops[k].Carries(id) && Poised(s, id, r, k, s.ops[k])
    requires s.ops[k].receivers != Some(r) && Passes(d, s, s.ops[k])
    requires !Harmless(s.calls[id], s.regs[r], s.ops[k])
    ensures CanFallBehind(d, s, id, s.calls[id].instance, r)
  {
    hide Passes, Poised, UpdateHarmless, EpochHarmless, CanFallBehind;
    match s.ops[k]
    case UpdateChosen(_, u, rs) => ChosenUpdateOvertakes(d, s, id, r, k, u, rs);
    case UpdateApplied(_, u, rs) => UpdateOvertakes(d, s, id, r, k, u, rs);
    case EpochChosen(_, e, rs) => ChosenEpochOvertakes(d, s, id, r, k, e, rs);
    case EpochApplied(_, e, rs) => EpochOvertakes(d, s, id, r, k, e, rs);
  }

  /** A settled registry never falls behind for as long as the call lives. */
  lemma SettledNeverFallsBehind(d: Derivation, s: Engine, id: string, acts: seq<Action>)
    requires Inv(s) && id in s.calls && s.calls[id].settled
    ensures s.calls[id].receivers.Some?
    ensures !Behind(Run(d, s, acts), id, s.calls[id].instance, s.calls[id].receivers.value)
  {
    assert CallOk(s, id);
    RunKeepsInv(d, s, acts);
    RunMovesForward(d, s, acts, id);
    var s' := Run(d, s, acts);
    if id in s'.calls && s'.calls[id].instance == s.calls[id].instance {
      assert CallOk(s', id);
    }
  }

  /** A registry just published never falls behind its call, whatever happens, exactly when it is
      settled: when it agrees with the call, and every update or epoch on its way that began
      without it is one the call drops or it covers.  (Operations begun against the registry of an
      earlier call of the same id count from where that registry has let them through.) */
  lemma PublicationExactly(d: Derivation, s: Engine, id: string, own: Ledger)
    requires Inv(s) && Ordered(own) && id in s.calls && s.calls[id].receivers.None?
    requires forall k :: k in s.ops && s.ops[k].Carries(id) ==> Passes(d, s, s.ops[k])
    ensures !CanFallBehind(d, Publish(s, id, own), id, s.calls[id].instance, s.nextReg)
            <==> Agrees(s.calls[id], own) && Undisturbed(s, id, own)
  {
    var p, instance, r := Publish(s, id, own), s.calls[id].instance, s.nextReg;
    PublishKeeps(s, id, own);
    assert CallOk(s, id) && CallOk(p, id);
    if !Agrees(s.calls[id], own) {
      IsBehind(d, p, id, instance, r);
    } else if !Undisturbed(s, id, own) {
      var k :| k in s.ops && s.ops[k].Carries(id) && !Harmless(s.calls[id], own, s.ops[k]);
      StrayFacts(d, s, id, own, k);
      HarmfulOvertakes(d, p, id, r, k);
    } else {
      hide Inv, Run, Behind;
      forall acts ensures !Behind(Run(d, p, acts), id, instance, r) {
        SettledNeverFallsBehind(d, p, id, acts);
      }
    }
  }

  /** An operation on its way, seen from the published state. */
  lemma StrayFacts(d: Derivation, s: Engine, id: string, own: Ledger, k: nat)
    requires Inv(s) && Ordered(own) && id in s.calls && s.calls[id].receivers.None?
    requires k in s.ops && s.ops[k].Carries(id) && Passes(d, s, s.ops[k])
    ensures var p := Publish(s, id, own);
            && Poised(p, id, s.nextReg, k, s.ops[k]) && s.ops[k].receivers != Some(s.nextReg)
            && Passes(d, p, s.ops[k])
            && (Harmless(p.calls[id], own, s.ops[k]) <==> Harmless(s.calls[id], own, s.ops[k]))
  {
    hide Accepts, OfferEpoch, Stale, Covers;
    assert OpOk(s, s.ops[k]) && CallOk(s, id) && s.nextReg !in s.regs;
  }

  // ----- the publications of media startup -----

  /** A registry published before the first group update or epoch of a call is settled unless one
      that began without it is under way. */
  lemma EarlyPublicationSettles(d: Derivation, s: Engine, id: string, own: Ledger)
    requires id in s.calls && s.calls[id].receivers.None? && s.calls[id].update.None? && s.calls[id].epoch.None?
    ensures Continue(d, s, Starting(id, false, own)).calls[id].settled <==> Undisturbed(s, id, own)
  {
  }

  /** And then, whatever happens for as long as the call lives, that registry is its registry, is
      never behind its update, and covers its epoch. */
  lemma EarlyRegistryNeverFallsBehind(d: Derivation, s: Engine, id: string, own: Ledger, acts: seq<Action>)
    requires Inv(s) && Ordered(own) && id in s.calls && Undisturbed(s, id, own)
    requires s.calls[id].receivers.None? && s.calls[id].update.None? && s.calls[id].epoch.None?
    ensures var s' := Run(d, Continue(d, s, Starting(id, false, own)), acts);
            id in s'.calls && s'.calls[id].instance == s.calls[id].instance ==>
              && s'.calls[id].receivers == Some(s.nextReg) && s.nextReg in s'.regs
              && Agrees(s'.calls[id], s'.regs[s.nextReg])
  {
    EarlyPublicationSettles(d, s, id, own);
    PublishKeeps(s, id, own);
    var p := Continue(d, s, Starting(id, false, own));
    assert p == Publish(s, id, own);
    assert CallOk(p, id);
    SettledNeverFallsBehind(d, p, id, acts);
    RunMovesForward(d, p, acts, id);
  }

  /** The group startup loop publishes only what agrees with the call it took its snapshot of, so
      the registry is settled exactly when nothing on its way would take the call past it. */
  lemma CheckedPublicationSettles(d: Derivation, s: Engine, op: Op)
    requires Inv(s) && op.Snapshotted? && OpOk(s, op) && op.id in s.calls
    requires s.calls[op.id].instance == op.instance && s.calls[op.id].receivers.None?
    ensures var s' := Continue(d, s, op);
            op.id in s'.calls && s'.calls[op.id].receivers.Some? ==>
              (s'.calls[op.id].settled <==> Undisturbed(s, op.id, op.own))
  {
    assert Since(s.calls[op.id], op.u, op.e);
  }

  /** A late publication: one between the two sections of a first update that begins without it.
      The registry falls behind exactly when it has no update as new already. */
  lemma LatePublicationFallsBehind(d: Derivation, s: Engine, id: string, own: Ledger, k: nat, u: Update)
    requires Inv(s) && Ordered(own) && id in s.calls && k in s.ops && s.ops[k] == UpdateApplied(id, u, None)
    requires s.calls[id].receivers.None? && s.calls[id].update.None? && s.calls[id].epoch.None?
    requires forall j :: j in s.ops && s.ops[j].Carries(id) ==> j == k
    ensures CanFallBehind(d, Publish(s, id, own), id, s.calls[id].instance, s.nextReg)
            <==> !(own.hasUpdate && u.tx <= own.tx)
  {
    hide Inv, CanFallBehind, Publish;
    PublicationExactly(d, s, id, own);
  }
}
