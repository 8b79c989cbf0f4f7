/**
  The call registry with its media-task cancel handles, and the phases of a call session.
 */
module CallRegistry {
  import opened Common

  // ----- phases -----

  datatype Direction = Incoming | Outgoing

  datatype Phase = Idle | Calling | Ringing | WaitingRoom | Connecting | Active | Ended

  /** The legal moves. */
  predicate Allowed(d: Direction, from: Phase, to: Phase) {
    if from == Ended then false
    else if to == Ended then true
    else if from == Idle && to == Calling then d == Outgoing
    else
      || (from == Calling && to == Ringing)
      || (from == Ringing && to == Connecting)
      || ((from == Calling || from == Connecting) && to == WaitingRoom)
      || (from == WaitingRoom && to == Connecting)
      || (from == Connecting && to == Active)
      || from == to
  }

  function Initial(d: Direction): Phase {
    if d == Outgoing then Idle else Ringing
  }

  class CallSession {
    const callID: string
    const direction: Direction
    var phase: Phase

    constructor (callID: string, direction: Direction)
      ensures this.callID == callID && this.direction == direction && phase == Initial(direction)
    {
      this.callID, this.direction, phase := callID, direction, if direction == Outgoing then Idle else Ringing;
    }

    method TransitionTo(next: Phase) returns (ok: bool)
      modifies this
      ensures ok == Allowed(direction, old(phase), next)
      ensures phase == if ok then next else old(phase)
    {
      if phase == Ended {
        ok := false;
      } else if next == Ended {
        ok := true;
      } else if phase == Idle && next == Calling {
        ok := direction == Outgoing;
      } else if phase == Calling && next == Ringing {
        ok := true;
      } else if phase == Ringing && next == Connecting {
        ok := true;
      } else if (phase == Calling || phase == Connecting) && next == WaitingRoom {
        ok := true;
      } else if phase == WaitingRoom && next == Connecting {
        ok := true;
      } else if phase == Connecting && next == Active {
        ok := true;
      } else {
        ok := phase == next;
      }
      if ok {
        phase := next;
      }
    }
  }

  /** The moves of a call's life, ending it aside. */
  const ARCS: set<(Phase, Phase)> := {
    (Idle, Calling), (Calling, Ringing), (Calling, WaitingRoom), (Ringing, Connecting),
    (WaitingRoom, Connecting), (Connecting, WaitingRoom), (Connecting, Active)
  }

  /** A call that has not ended can stay as it is, end, or take one of the arcs, dialling only if it
      is outgoing; a call that has ended can do nothing. */
  lemma ArcsExactly(d: Direction, from: Phase, to: Phase)
    ensures Allowed(d, from, to) <==>
            from != Ended && (to == from || to == Ended || ((from, to) in ARCS && (to == Calling ==> d == Outgoing)))
  {
  }

  /** The phases a session goes through as moves are attempted, legal or not. */
  function Visited(d: Direction, attempts: seq<Phase>): (s: seq<Phase>)
    ensures |s| == |attempts| + 1
  {
    if attempts == [] then [Initial(d)]
    else
      var before := Visited(d, attempts[..|attempts| - 1]);
      var from, to := before[|before| - 1], attempts[|attempts| - 1];
      before + [if Allowed(d, from, to) then to else from]
  }

  /** Whatever is attempted: Active is entered only from Connecting, Connecting only from Ringing
      or the waiting room, Ended is final, and an incoming call is never idle or calling. */
  lemma {:induction false} PhasesAreSafe(d: Direction, attempts: seq<Phase>)
    ensures var v := Visited(d, attempts);
            && v[0] == Initial(d)
            && (forall i :: 0 <= i < |v| - 1 && v[i] != v[i + 1] ==>
                  && v[i] != Ended
                  && (v[i + 1] == Active ==> v[i] == Connecting)
                  && (v[i + 1] == Connecting ==> v[i] == Ringing || v[i] == WaitingRoom)
                  && (v[i + 1] == Calling ==> v[i] == Idle && d == Outgoing))
            && (d == Incoming ==> forall i :: 0 <= i < |v| ==> v[i] != Idle && v[i] != Calling)
  {
    if attempts != [] {
      PhasesAreSafe(d, attempts[..|attempts| - 1]);
    }
  }

  /** An active call has been connecting, and before that ringing or in the waiting room. */
  lemma ActiveHasConnected(d: Direction, attempts: seq<Phase>, k: nat) returns (i: nat, j: nat)
    requires k <= |attempts| && Visited(d, attempts)[k] == Active
    ensures i < j < k && Visited(d, attempts)[j] == Connecting
    ensures Visited(d, attempts)[i] == Ringing || Visited(d, attempts)[i] == WaitingRoom
  {
    PhasesAreSafe(d, attempts);
    var v := Visited(d, attempts);
    j := k;
    while v[j] != Connecting
      invariant j <= k && (v[j] == Active || v[j] == Connecting) && (v[j] == Connecting ==> j < k)
      decreases j
    {
      j := j - 1;
    }
    i := j;
    while v[i] == Connecting
      invariant i <= j < k && (v[i] == Connecting || v[i] == Ringing || v[i] == WaitingRoom)
      invariant i == j ==> v[i] == Connecting
      decreases i
    {
      i := i - 1;
    }
  }

  /** A path along the arcs, ending at most at its end. */
  ghost predicate Path(d: Direction, from: Phase, path: seq<Phase>)
    decreases |path|
  {
    path == [] ||
    (&& from != Ended && (path[0] == Ended || ((from, path[0]) in ARCS && (path[0] == Calling ==> d == Outgoing)))
     && Path(d, path[0], path[1..]))
  }

  lemma {:induction false} PathSnoc(d: Direction, from: Phase, path: seq<Phase>, to: Phase)
    ensures var last := if path == [] then from else path[|path| - 1];
            Path(d, from, path + [to]) <==> Path(d, from, path) && Path(d, last, [to])
    decreases |path|
  {
    if path == [] {
      assert path + [to] == [to];
    } else {
      assert (path + [to])[1..] == path[1..] + [to] && [to][1..] == [];
      PathSnoc(d, path[0], path[1..], to);
    }
  }

  /** Every path is walked: a session takes all its moves, one after the other. */
  lemma {:induction false} PathIsWalked(d: Direction, path: seq<Phase>)
    requires Path(d, Initial(d), path)
    ensures Visited(d, path) == [Initial(d)] + path
    decreases |path|
  {
    if path != [] {
      var front, to := path[..|path| - 1], path[|path| - 1];
      assert front + [to] == path;
      PathSnoc(d, Initial(d), front, to);
      PathIsWalked(d, front);
      var from := Visited(d, front)[|front|];
      assert from == if front == [] then Initial(d) else front[|front| - 1];
      assert [to][0] == to && [to][1..] == [];
      ArcsExactly(d, from, to);
    }
  }

  /** A placed call and an accepted one become active, through the waiting room or not, and end. */
  lemma CallsConnect()
    ensures Path(Outgoing, Initial(Outgoing), [Calling, Ringing, Connecting, Active, Ended])
    ensures Path(Outgoing, Initial(Outgoing), [Calling, WaitingRoom, Connecting, Active, Ended])
    ensures Path(Incoming, Initial(Incoming), [Connecting, Active, Ended])
    ensures Path(Incoming, Initial(Incoming), [Connecting, WaitingRoom, Connecting, Active, Ended])
  {
    assert [Calling, Ringing, Connecting, Active, Ended][1..] == [Ringing, Connecting, Active, Ended];
    assert [Ringing, Connecting, Active, Ended][1..] == [Connecting, Active, Ended];
    assert [Calling, WaitingRoom, Connecting, Active, Ended][1..] == [WaitingRoom, Connecting, Active, Ended];
    assert [Connecting, WaitingRoom, Connecting, Active, Ended][1..] == [WaitingRoom, Connecting, Active, Ended];
    assert [WaitingRoom, Connecting, Active, Ended][1..] == [Connecting, Active, Ended];
    assert [Connecting, Active, Ended][1..] == [Active, Ended] && [Active, Ended][1..] == [Ended] && [Ended][1..] == [];
    assert Path(Outgoing, Active, [Ended]) && Path(Incoming, Active, [Ended]);
    assert Path(Outgoing, Connecting, [Active, Ended]) && Path(Incoming, Connecting, [Active, Ended]);
    assert Path(Outgoing, Ringing, [Connecting, Active, Ended]);
    assert Path(Outgoing, WaitingRoom, [Connecting, Active, Ended]);
    assert Path(Incoming, WaitingRoom, [Connecting, Active, Ended]);
    assert Path(Outgoing, Calling, [Ringing, Connecting, Active, Ended]);
    assert Path(Outgoing, Calling, [WaitingRoom, Connecting, Active, Ended]);
    assert Path(Incoming, Connecting, [WaitingRoom, Connecting, Active, Ended]);
  }

  /** A session driven along any attempts. */
  method Walk(d: Direction, attempts: seq<Phase>) returns (visited: seq<Phase>)
    ensures visited == Visited(d, attempts)
    ensures Path(d, Initial(d), attempts) ==> visited == [Initial(d)] + attempts
  {
    var session := new CallSession("", d);
    visited := [session.phase];
    for i := 0 to |attempts|
      invariant fresh(session) && session.direction == d
      invariant visited == Visited(d, attempts[..i]) && session.phase == visited[i]
    {
      assert attempts[..i + 1][..i] == attempts[..i];
      var _ := session.TransitionTo(attempts[i]);
      visited := visited + [session.phase];
    }
    assert attempts[..|attempts|] == attempts;
    if Path(d, Initial(d), attempts) {
      PathIsWalked(d, attempts);
    }
  }

  // ----- cancel handles -----

  datatype Entry = Entry(session: CallSession, mediaTask: Option<nat>)

  ghost predicate Holds(calls: map<string, Entry>, id: string, h: nat) {
    id in calls && calls[id].mediaTask == Some(h)
  }

  /** Every handle given is held by exactly one entry or was cancelled exactly once, not both. */
  ghost predicate Conserved(calls: map<string, Entry>, given: set<nat>, cancelled: seq<nat>) {
    && (forall i, j :: 0 <= i < j < |cancelled| ==> cancelled[i] != cancelled[j])
    && (forall id, id', h :: Holds(calls, id, h) && Holds(calls, id', h) ==> id == id')
    && (forall id, h :: Holds(calls, id, h) ==> h in given && h !in cancelled)
    && (forall h :: h in cancelled ==> h in given)
    && (forall h :: h in given ==> h in cancelled || exists id :: Holds(calls, id, h))
  }

  class Registry {
    var calls: map<string, Entry>
    var cancelled: seq<nat>
    ghost var given: set<nat>

    ghost predicate Valid()
      reads this
    {
      && Conserved(calls, given, cancelled)
      && forall id :: id in calls ==> calls[id].session.callID == id
    }

    constructor ()
      ensures Valid() && calls == map[] && cancelled == [] && given == {}
    {
      calls, cancelled, given := map[], [], {};
    }

    method Cancel(h: nat)
      modifies this`cancelled
      ensures cancelled == old(cancelled) + [h]
    {
      cancelled := cancelled + [h];
    }

    method Insert(session: CallSession) returns (ok: bool)
      requires Valid()
      modifies this`calls
      ensures Valid() && ok == (session.callID !in old(calls))
      ensures calls == if ok then old(calls)[session.callID := Entry(session, None)] else old(calls)
    {
      if session.callID in calls {
        return false;
      }
      NewEntry(calls, given, cancelled, session.callID, Entry(session, None));
      calls := calls[session.callID := Entry(session, None)];
      ok := true;
    }

    /** Attaches a handle; the one it replaces, or this one if the call is unknown, is cancelled. */
    method SetMediaTask(callID: string, h: nat)
      requires Valid() && h !in given
      modifies this
      ensures Valid() && given == old(given) + {h}
      ensures callID in old(calls) ==>
                calls == old(calls)[callID := old(calls)[callID].(mediaTask := Some(h))]
                && cancelled == And(old(cancelled), old(calls)[callID].mediaTask)
      ensures callID !in old(calls) ==> calls == old(calls) && cancelled == old(cancelled) + [h]
    {
      hide Conserved;
      if callID !in calls {
        UnknownCall(calls, given, cancelled, h);
        given := given + {h};
        Cancel(h);
        return;
      }
      var task := calls[callID].mediaTask;
      Replaced(calls, given, cancelled, callID, h);
      calls := calls[callID := calls[callID].(mediaTask := Some(h))];
      given := given + {h};
      if task.Some? {
        Cancel(task.value);
      }
    }

    method Transition(callID: string, next: Phase) returns (ok: bool)
      requires Valid()
      modifies set id | id in calls :: calls[id].session
      ensures callID !in calls ==> !ok
      ensures callID in calls ==>
                var s := calls[callID].session;
                ok == Allowed(s.direction, old(s.phase), next) && s.phase == if ok then next else old(s.phase)
      ensures forall id :: id in calls && id != callID ==> calls[id].session.phase == old(calls[id].session.phase)
    {
      if callID !in calls {
        return false;
      }
      ok := calls[callID].session.TransitionTo(next);
    }

    method Remove(callID: string) returns (ok: bool)
      requires Valid()
      modifies this
      ensures Valid() && given == old(given) && ok == (callID in old(calls))
      ensures calls == map id | id in old(calls) && id != callID :: old(calls)[id]
      ensures cancelled == if ok then And(old(cancelled), old(calls)[callID].mediaTask) else old(cancelled)
    {
      hide Conserved;
      if callID !in calls {
        assert calls == map id | id in calls && id != callID :: calls[id];
        return false;
      }
      var task := calls[callID].mediaTask;
      Dropped(calls, given, cancelled, callID);
      calls := map id | id in calls && id != callID :: calls[id];
      if task.Some? {
        Cancel(task.value);
      }
      ok := true;
    }

    /** Empties the registry; in whatever order the entries are visited, every handle held is
        cancelled once. */
    method AbortAll() returns (cleared: nat)
      requires Valid()
      modifies this
      ensures Valid() && calls == map[] && given == old(given) && cleared == |old(calls)|
      ensures forall h :: h in given <==> h in cancelled
    {
      hide Conserved;
      cleared := |calls|;
      var entries := calls;
      while entries.Keys != {}
        invariant Conserved(entries, given, cancelled)
        invariant given == old(given)
        decreases |entries|
      {
        var id :| id in entries;
        Dropped(entries, given, cancelled, id);
        var task := entries[id].mediaTask;
        var rest := map k | k in entries && k != id :: entries[k];
        assert rest.Keys == entries.Keys - {id};
        entries := rest;
        if task.Some? {
          Cancel(task.value);
        }
      }
      assert entries == map[];
      AllCancelled(given, cancelled);
      calls := map[];
    }
  }

  function And(cancelled: seq<nat>, task: Option<nat>): seq<nat> {
    if task.Some? then cancelled + [task.value] else cancelled
  }

  lemma NewEntry(calls: map<string, Entry>, given: set<nat>, cancelled: seq<nat>, id: string, e: Entry)
    requires Conserved(calls, given, cancelled) && id !in calls && e.mediaTask.None?
    ensures Conserved(calls[id := e], given, cancelled)
  {
    var calls' := calls[id := e];
    assert forall k, h :: Holds(calls', k, h) <==> Holds(calls, k, h);
  }

  lemma UnknownCall(calls: map<string, Entry>, given: set<nat>, cancelled: seq<nat>, h: nat)
    requires Conserved(calls, given, cancelled) && h !in given
    ensures Conserved(calls, given + {h}, cancelled + [h])
  {
  }

  lemma Replaced(calls: map<string, Entry>, given: set<nat>, cancelled: seq<nat>, id: string, h: nat)
    requires Conserved(calls, given, cancelled) && id in calls && h !in given
    ensures var task := calls[id].mediaTask;
            Conserved(calls[id := calls[id].(mediaTask := Some(h))], given + {h}, And(cancelled, task))
  {
    var task := calls[id].mediaTask;
    Dropped(calls, given, cancelled, id);
    var rest := map k | k in calls && k != id :: calls[k];
    var calls' := calls[id := calls[id].(mediaTask := Some(h))];
    assert Holds(calls', id, h);
    assert forall k, g :: Holds(calls', k, g) <==> Holds(rest, k, g) || (k == id && g == h);
  }

  lemma Dropped(calls: map<string, Entry>, given: set<nat>, cancelled: seq<nat>, id: string)
    requires Conserved(calls, given, cancelled) && id in calls
    ensures var task := calls[id].mediaTask;
            Conserved(map k | k in calls && k != id :: calls[k], given, And(cancelled, task))
  {
    var task := calls[id].mediaTask;
    var rest := map k | k in calls && k != id :: calls[k];
    assert forall k, h :: Holds(rest, k, h) <==> Holds(calls, k, h) && k != id;
    if task.Some? {
      assert Holds(calls, id, task.value);
    }
    var cancelled' := And(cancelled, task);
    forall h | h in given ensures h in cancelled' || exists k :: Holds(rest, k, h) {
      if h !in cancelled {
        var k :| Holds(calls, k, h);
        assert k != id ==> Holds(rest, k, h);
      }
    }
  }

  lemma AllCancelled(given: set<nat>, cancelled: seq<nat>)
    requires Conserved(map[], given, cancelled)
    ensures forall h :: h in given <==> h in cancelled
  {
    assert forall id, h :: !Holds(map[], id, h);
  }

  // ----- whole runs -----

  datatype Op =
    | Inserting(callID: string, direction: Direction)
    | SettingTask(callID: string)
    | Transitioning(callID: string, next: Phase)
    | Removing(callID: string)
    | Aborting

  function Numbers(n: nat): (s: set<nat>)
    ensures forall h: nat :: h in s <==> h < n
  {
    if n == 0 then {} else Numbers(n - 1) + {n - 1}
  }

  function HandlesGiven(ops: seq<Op>): nat {
    if ops == [] then 0
    else HandlesGiven(ops[..|ops| - 1]) + if ops[|ops| - 1].SettingTask? then 1 else 0
  }

  lemma HandlesSnoc(ops: seq<Op>, op: Op)
    ensures HandlesGiven(ops + [op]) == HandlesGiven(ops) + if op.SettingTask? then 1 else 0
  {
    assert (ops + [op])[..|ops|] == ops;
  }

  /** Any run, the n-th handle given being numbered n: each is held by exactly one entry or
      cancelled exactly once, and a final AbortAll leaves none uncancelled. */
  method RunRegistry(ops: seq<Op>) returns (calls: map<string, Entry>, cancelled: seq<nat>)
    ensures Conserved(calls, Numbers(HandlesGiven(ops)), cancelled)
    ensures ops != [] && ops[|ops| - 1].Aborting? ==>
              calls == map[] && forall h :: 0 <= h < HandlesGiven(ops) ==> h in cancelled
    ensures forall id :: id in calls && calls[id].session.direction == Incoming ==>
              calls[id].session.phase != Idle && calls[id].session.phase != Calling
  {
    hide Conserved, HandlesGiven;
    var r := new Registry();
    var next := 0;
    NoneGiven();
    for i := 0 to |ops|
      invariant fresh(r) && r.Valid() && next == HandlesGiven(ops[..i])
      invariant forall id :: id in r.calls ==> fresh(r.calls[id].session)
      invariant forall id :: id in r.calls && r.calls[id].session.direction == Incoming ==>
                  r.calls[id].session.phase != Idle && r.calls[id].session.phase != Calling
      invariant r.given == Numbers(next)
      invariant i > 0 && ops[i - 1].Aborting? ==> r.calls == map[] && forall h :: h in r.given ==> h in r.cancelled
    {
      HandlesSnoc(ops[..i], ops[i]);
      assert ops[..i] + [ops[i]] == ops[..i + 1];
      match ops[i]
      case Inserting(callID, direction) =>
        var s := new CallSession(callID, direction);
        var _ := r.Insert(s);
      case SettingTask(callID) =>
        r.SetMediaTask(callID, next);
        next := next + 1;
      case Transitioning(callID, phase) =>
        var _ := r.Transition(callID, phase);
      case Removing(callID) =>
        var _ := r.Remove(callID);
      case Aborting =>
        var _ := r.AbortAll();
    }
    assert ops[..|ops|] == ops;
    calls, cancelled := r.calls, r.cancelled;
  }

  lemma NoneGiven()
    ensures HandlesGiven([]) == 0
  {
  }
}
