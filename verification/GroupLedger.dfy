/**
  The transaction ledger of the group media registry: which roster update is in force, which
  raw key epoch is installed and which epochs wait for a later roster.  Everything here is a
  value; the registry object of module GroupReceive is proved to follow these functions.
 */
module GroupLedger {
  import opened Common

  datatype Device = Device(jid: string, pid: nat, hasPid: bool)

  datatype Participant = Participant(jid: string, state: string, devices: seq<Device>)

  /** One authoritative roster snapshot, numbered by its transaction. */
  datatype Update = Update(tx: nat, participants: seq<Participant>)

  datatype Epoch = Epoch(tx: nat, key: Bytes)

  /** One connected remote device of a roster, under its formatted participant id. */
  datatype Entry = Entry(id: string, user: string, device: string, pid: nat)

  /** The SSRCs of a participant's nine relay streams, in the slot order 0, 1, 4, 2, 3, 5, 7, 8, 6. */
  type Nine = s: seq<nat> | |s| == 9 witness [0, 0, 0, 0, 0, 0, 0, 0, 0]

  /** The derivations of the rtp package, left uninterpreted: the participant id of a device JID
      and a participant's relay stream SSRCs. */
  datatype Derivation = Derivation(selfId: string, format: string -> string, streams: string -> Nine)

  /** Audio is slot 0, video slot 2 and app-data slot 6: these positions among the nine. */
  const AUDIO_STREAM: nat := 0
  const VIDEO_STREAM: nat := 3
  const APP_DATA_STREAM: nat := 8

  const RAW_KEY_BYTES: nat := 32

  function DeviceEntries(d: Derivation, user: string, devices: seq<Device>): seq<Entry> {
    if devices == [] then []
    else
      var id := d.format(devices[0].jid);
      var rest := DeviceEntries(d, user, devices[1..]);
      if devices[0].hasPid && id != d.selfId
      then [Entry(id, user, devices[0].jid, devices[0].pid)] + rest
      else rest
  }

  /** The devices a roster makes active: connected participants' devices with a PID, self excluded. */
  function Entries(d: Derivation, participants: seq<Participant>): seq<Entry> {
    if participants == [] then []
    else
      (if participants[0].state == "connected"
       then DeviceEntries(d, participants[0].jid, participants[0].devices)
       else []) + Entries(d, participants[1..])
  }

  function Ids(es: seq<Entry>): set<string> {
    if es == [] then {} else Ids(es[..|es| - 1]) + {es[|es| - 1].id}
  }

  function Pids(es: seq<Entry>): set<nat> {
    if es == [] then {} else Pids(es[..|es| - 1]) + {es[|es| - 1].pid}
  }

  lemma IdsSnoc(es: seq<Entry>, e: Entry)
    ensures Ids(es + [e]) == Ids(es) + {e.id} && Pids(es + [e]) == Pids(es) + {e.pid}
  {
    assert (es + [e])[..|es|] == es;
  }

  lemma {:induction false} IdAt(es: seq<Entry>, i: nat)
    requires i < |es|
    ensures es[i].id in Ids(es) && es[i].pid in Pids(es)
  {
    if i < |es| - 1 {
      IdAt(es[..|es| - 1], i);
    }
  }

  lemma {:induction false} FindId(es: seq<Entry>, id: string) returns (i: nat)
    requires id in Ids(es)
    ensures i < |es| && es[i].id == id
  {
    if es[|es| - 1].id == id {
      i := |es| - 1;
    } else {
      i := FindId(es[..|es| - 1], id);
    }
  }

  lemma {:induction false} FindPid(es: seq<Entry>, pid: nat) returns (i: nat)
    requires pid in Pids(es)
    ensures i < |es| && es[i].pid == pid
  {
    if es[|es| - 1].pid == pid {
      i := |es| - 1;
    } else {
      i := FindPid(es[..|es| - 1], pid);
    }
  }

  /** No two devices share a participant id or a PID, and no two of all their relay streams
      (audio, video and app-data streams are among the nine) share an SSRC. */
  ghost predicate Compatible(d: Derivation, es: seq<Entry>) {
    && (forall i, j :: 0 <= i < j < |es| ==> es[i].id != es[j].id && es[i].pid != es[j].pid)
    && (forall i :: 0 <= i < |es| ==> DistinctStreams(d, es[i].id))
    && (forall i, j :: 0 <= i < j < |es| ==> DisjointStreams(d, es[i].id, es[j].id))
  }

  ghost predicate DistinctStreams(d: Derivation, id: string) {
    forall a, b :: 0 <= a < b < 9 ==> d.streams(id)[a] != d.streams(id)[b]
  }

  ghost predicate DisjointStreams(d: Derivation, x: string, y: string) {
    forall a, b :: 0 <= a < 9 && 0 <= b < 9 ==> d.streams(x)[a] != d.streams(y)[b]
  }

  /** keyed: the call key is still there, so receivers for new devices can be created. */
  datatype Ledger = Ledger(
    hasUpdate: bool,
    tx: nat,
    active: set<string>,
    fallback: string,
    keyed: bool,
    installed: Option<Epoch>,
    pending: map<nat, Bytes>)

  /** What every reachable ledger satisfies:
      installed epoch <= roster transaction < every pending epoch. */
  ghost predicate Ordered(l: Ledger) {
    && (l.installed.Some? ==> l.hasUpdate && l.installed.value.tx <= l.tx && |l.installed.value.key| == RAW_KEY_BYTES)
    && (forall t :: t in l.pending ==> (l.hasUpdate ==> l.tx < t) && |l.pending[t]| == RAW_KEY_BYTES)
  }

  /** The greatest pending transaction not above a bound. */
  function Newest(pending: map<nat, Bytes>, bound: nat): (r: Option<nat>)
    ensures r.None? ==> forall t :: t in pending ==> bound < t
    ensures r.Some? ==> r.value in pending && r.value <= bound
    ensures r.Some? ==> forall t :: t in pending && t <= bound ==> t <= r.value
  {
    if bound in pending then Some(bound)
    else if bound == 0 then None
    else Newest(pending, bound - 1)
  }

  datatype Selection = Conflict | Keep | Replace(epoch: Epoch)

  /** Which epoch a roster commit runs with. */
  function Select(l: Ledger, tx: nat): Selection {
    match Newest(l.pending, tx)
    case None => Keep
    case Some(t) =>
      if l.installed.None? || t > l.installed.value.tx then Replace(Epoch(t, l.pending[t]))
      else if t == l.installed.value.tx && l.pending[t] != l.installed.value.key then Conflict
      else Keep
  }

  /** Preparation accepts a roster when its devices are compatible and every device that has no
      receiver yet can be given one. */
  ghost predicate Admissible(d: Derivation, l: Ledger, u: Update) {
    var es := Entries(d, u.participants);
    && Compatible(d, es)
    && (l.keyed || Ids(es) <= l.active)
  }

  ghost predicate Stale(l: Ledger, u: Update) {
    l.hasUpdate && u.tx <= l.tx
  }

  /** The device ids active under a roster: its own devices, or the fallback peer while no
      connected remote device has a PID. */
  function NextActive(d: Derivation, l: Ledger, u: Update): set<string> {
    var es := Entries(d, u.participants);
    if es != [] then Ids(es)
    else if l.fallback in l.active then {l.fallback}
    else {}
  }

  function Above(pending: map<nat, Bytes>, tx: nat): map<nat, Bytes> {
    map t | t in pending && tx < t :: pending[t]
  }

  function Commit(d: Derivation, l: Ledger, u: Update): Ledger {
    var s := Select(l, u.tx);
    l.(hasUpdate := true, tx := u.tx, active := NextActive(d, l, u),
       installed := if s.Replace? then Some(s.epoch) else l.installed,
       pending := Above(l.pending, u.tx))
  }

  ghost predicate Accepts(d: Derivation, l: Ledger, u: Update) {
    !Stale(l, u) && Admissible(d, l, u) && Select(l, u.tx) != Conflict
  }

  ghost function ApplyUpdate(d: Derivation, l: Ledger, u: Update): Ledger {
    if Accepts(d, l, u) then Commit(d, l, u) else l
  }

  datatype EpochVerdict = Accepted(next: Ledger) | Refused

  /** An epoch above the roster waits; one not newer than the installed epoch is ignored; two
      different keys for one transaction are refused. */
  function OfferEpoch(l: Ledger, e: Epoch): EpochVerdict {
    if |e.key| != RAW_KEY_BYTES then Refused
    else if !l.hasUpdate || e.tx > l.tx then
      if e.tx !in l.pending then Accepted(l.(pending := l.pending[e.tx := e.key]))
      else if l.pending[e.tx] == e.key then Accepted(l)
      else Refused
    else if l.installed.Some? && e.tx < l.installed.value.tx then Accepted(l)
    else if l.installed.Some? && e.tx == l.installed.value.tx then
      if l.installed.value.key == e.key then Accepted(l) else Refused
    else Accepted(l.(installed := Some(e)))
  }

  function ApplyEpoch(l: Ledger, e: Epoch): Ledger {
    match OfferEpoch(l, e)
    case Accepted(next) => next
    case Refused => l
  }

  /** The answering device becomes the fallback peer. */
  function ApplyFallback(l: Ledger, id: string): Ledger {
    if l.hasUpdate then
      if id in l.active then l.(fallback := id) else l
    else if l.keyed then l.(active := {id}, fallback := id)
    else l
  }

  function Cleared(l: Ledger): Ledger {
    l.(active := {}, keyed := false, installed := None, pending := map[])
  }

  function Fresh(fallback: string): Ledger {
    Ledger(false, 0, {fallback}, fallback, true, None, map[])
  }

  // ----- every step keeps the order, so preparation never meets a conflict -----

  lemma OrderedNeverConflicts(l: Ledger, tx: nat)
    requires Ordered(l)
    ensures Select(l, tx) != Conflict
  {
    var n := Newest(l.pending, tx);
    if n.Some? && l.installed.Some? {
      assert l.tx < n.value;
    }
  }

  lemma CommitKeepsOrder(d: Derivation, l: Ledger, u: Update)
    requires Ordered(l) && !Stale(l, u)
    ensures Ordered(Commit(d, l, u))
  {
  }

  lemma EpochKeepsOrder(l: Ledger, e: Epoch)
    requires Ordered(l)
    ensures Ordered(ApplyEpoch(l, e))
  {
  }

  // ----- which devices a roster makes active, said of its participants and their devices -----

  /** Device j of participant i is one of a connected participant, has a PID and is not this client's
      own. */
  predicate Remote(d: Derivation, ps: seq<Participant>, i: nat, j: nat)
    requires i < |ps| && j < |ps[i].devices|
  {
    ps[i].state == "connected" && ps[i].devices[j].hasPid && d.format(ps[i].devices[j].jid) != d.selfId
  }

  /** Some connected remote device with a PID has this participant id. */
  ghost predicate Names(d: Derivation, ps: seq<Participant>, id: string) {
    exists i, j :: 0 <= i < |ps| && 0 <= j < |ps[i].devices| && Remote(d, ps, i, j)
                   && d.format(ps[i].devices[j].jid) == id
  }

  ghost predicate NamesAny(d: Derivation, ps: seq<Participant>) {
    exists i, j :: 0 <= i < |ps| && 0 <= j < |ps[i].devices| && Remote(d, ps, i, j)
  }

  function EntryOf(d: Derivation, p: Participant, device: Device): Entry {
    Entry(d.format(device.jid), p.jid, device.jid, device.pid)
  }

  ghost predicate Listing(d: Derivation, ps: seq<Participant>, e: Entry) {
    exists i, j :: 0 <= i < |ps| && 0 <= j < |ps[i].devices| && Remote(d, ps, i, j)
                   && e == EntryOf(d, ps[i], ps[i].devices[j])
  }

  lemma {:induction false} DeviceEntriesExactly(d: Derivation, p: Participant, devices: seq<Device>, e: Entry)
    ensures e in DeviceEntries(d, p.jid, devices) <==>
            exists j :: 0 <= j < |devices| && devices[j].hasPid && d.format(devices[j].jid) != d.selfId
                        && e == EntryOf(d, p, devices[j])
  {
    if devices != [] {
      DeviceEntriesExactly(d, p, devices[1..], e);
      assert forall j :: 1 <= j < |devices| ==> devices[j] == devices[1..][j - 1];
      assert forall j :: 0 <= j < |devices| - 1 ==> devices[1..][j] == devices[j + 1];
    }
  }

  /** The entries of a roster are those of its connected remote devices with a PID. */
  lemma {:induction false} EntriesExactly(d: Derivation, ps: seq<Participant>, e: Entry)
    ensures e in Entries(d, ps) <==> Listing(d, ps, e)
  {
    if ps != [] {
      var rest := ps[1..];
      EntriesExactly(d, rest, e);
      DeviceEntriesExactly(d, ps[0], ps[0].devices, e);
      if Listing(d, rest, e) {
        var i, j :| 0 <= i < |rest| && 0 <= j < |rest[i].devices| && Remote(d, rest, i, j)
                    && e == EntryOf(d, rest[i], rest[i].devices[j]);
        assert ps[i + 1] == rest[i] && Remote(d, ps, i + 1, j);
      }
      if ps[0].state == "connected" && e in DeviceEntries(d, ps[0].jid, ps[0].devices) {
        var j :| 0 <= j < |ps[0].devices| && ps[0].devices[j].hasPid
                 && d.format(ps[0].devices[j].jid) != d.selfId && e == EntryOf(d, ps[0], ps[0].devices[j]);
        assert Remote(d, ps, 0, j);
      }
      if Listing(d, ps, e) {
        var i, j :| 0 <= i < |ps| && 0 <= j < |ps[i].devices| && Remote(d, ps, i, j)
                    && e == EntryOf(d, ps[i], ps[i].devices[j]);
        if i > 0 {
          assert ps[i] == rest[i - 1] && Remote(d, rest, i - 1, j);
        }
      }
    }
  }

  lemma IdsExactly(es: seq<Entry>, id: string)
    ensures id in Ids(es) <==> exists k :: 0 <= k < |es| && es[k].id == id
  {
    if id in Ids(es) {
      var k := FindId(es, id);
    }
    if k :| 0 <= k < |es| && es[k].id == id {
      IdAt(es, k);
    }
  }

  /** The ids of a roster's entries are the ids it names. */
  lemma NamesExactly(d: Derivation, ps: seq<Participant>)
    ensures forall id :: id in Ids(Entries(d, ps)) <==> Names(d, ps, id)
    ensures Entries(d, ps) == [] <==> !NamesAny(d, ps)
  {
    var es := Entries(d, ps);
    forall id ensures id in Ids(es) <==> Names(d, ps, id) {
      IdsExactly(es, id);
      if id in Ids(es) {
        var k :| 0 <= k < |es| && es[k].id == id;
        EntriesExactly(d, ps, es[k]);
      }
      if Names(d, ps, id) {
        var i, j :| 0 <= i < |ps| && 0 <= j < |ps[i].devices| && Remote(d, ps, i, j)
                    && d.format(ps[i].devices[j].jid) == id;
        EntriesExactly(d, ps, EntryOf(d, ps[i], ps[i].devices[j]));
        var k :| 0 <= k < |es| && es[k] == EntryOf(d, ps[i], ps[i].devices[j]);
      }
    }
    if es != [] {
      EntriesExactly(d, ps, es[0]);
    }
    if NamesAny(d, ps) {
      var i, j :| 0 <= i < |ps| && 0 <= j < |ps[i].devices| && Remote(d, ps, i, j);
      EntriesExactly(d, ps, EntryOf(d, ps[i], ps[i].devices[j]));
    }
  }

  /** The active ids under a roster: those it names, or the fallback peer's, if it was active, when
      it names none. */
  ghost predicate ActiveUnder(
    d: Derivation, ps: seq<Participant>, before: set<string>, fallback: string, active: set<string>)
  {
    if NamesAny(d, ps) then forall id :: id in active <==> Names(d, ps, id)
    else forall id :: id in active <==> id == fallback && fallback in before
  }

  /** Some connected remote device has this PID. */
  ghost predicate NamesPid(d: Derivation, ps: seq<Participant>, pid: nat) {
    exists i, j :: 0 <= i < |ps| && 0 <= j < |ps[i].devices| && Remote(d, ps, i, j) && ps[i].devices[j].pid == pid
  }

  lemma NamesPidExactly(d: Derivation, ps: seq<Participant>, pid: nat)
    ensures pid in Pids(Entries(d, ps)) <==> NamesPid(d, ps, pid)
  {
    var es := Entries(d, ps);
    if pid in Pids(es) {
      var k := FindPid(es, pid);
      EntriesExactly(d, ps, es[k]);
    }
    if NamesPid(d, ps, pid) {
      var i, j :| 0 <= i < |ps| && 0 <= j < |ps[i].devices| && Remote(d, ps, i, j) && ps[i].devices[j].pid == pid;
      var e := EntryOf(d, ps[i], ps[i].devices[j]);
      EntriesExactly(d, ps, e);
      var k :| 0 <= k < |es| && es[k] == e;
      IdAt(es, k);
    }
  }

  /** What a committed update makes active. */
  lemma CommitActivates(d: Derivation, l: Ledger, u: Update)
    ensures ActiveUnder(d, u.participants, l.active, l.fallback, Commit(d, l, u).active)
  {
    NamesExactly(d, u.participants);
  }

  // ----- which rosters are good, said of the same -----

  ghost predicate Distinguishable(d: Derivation, a: Entry, b: Entry) {
    a.id != b.id && a.pid != b.pid && DisjointStreams(d, a.id, b.id)
  }

  function RemoteEntry(d: Derivation, ps: seq<Participant>, i: nat, j: nat): Entry
    requires i < |ps| && j < |ps[i].devices|
  {
    EntryOf(d, ps[i], ps[i].devices[j])
  }

  /** Every connected remote device with a PID has nine distinct SSRCs, and any two differ in
      participant id, PID and all SSRCs. */
  ghost predicate GoodRoster(d: Derivation, ps: seq<Participant>) {
    && (forall i, j :: 0 <= i < |ps| && 0 <= j < |ps[i].devices| && Remote(d, ps, i, j) ==>
          DistinctStreams(d, d.format(ps[i].devices[j].jid)))
    && (forall i, j, i', j' ::
          0 <= i < |ps| && 0 <= j < |ps[i].devices| && 0 <= i' < |ps| && 0 <= j' < |ps[i'].devices|
          && Remote(d, ps, i, j) && Remote(d, ps, i', j') && (i != i' || j != j') ==>
            Distinguishable(d, RemoteEntry(d, ps, i, j), RemoteEntry(d, ps, i', j')))
  }

  ghost predicate Pairwise(d: Derivation, es: seq<Entry>) {
    && (forall i, j :: 0 <= i < j < |es| ==> Distinguishable(d, es[i], es[j]))
    && (forall i :: 0 <= i < |es| ==> DistinctStreams(d, es[i].id))
  }

  lemma CompatibleIsPairwise(d: Derivation, es: seq<Entry>)
    ensures Compatible(d, es) <==> Pairwise(d, es)
  {
    hide DistinctStreams, DisjointStreams;
    if Pairwise(d, es) {
      forall i, j | 0 <= i < j < |es|
        ensures es[i].id != es[j].id && es[i].pid != es[j].pid && DisjointStreams(d, es[i].id, es[j].id)
      {
        assert Distinguishable(d, es[i], es[j]);
      }
    }
  }

  lemma CompatibleSplits(d: Derivation, a: seq<Entry>, b: seq<Entry>)
    ensures Compatible(d, a + b) <==>
            Compatible(d, a) && Compatible(d, b) && forall x, y :: x in a && y in b ==> Distinguishable(d, x, y)
  {
    CompatibleIsPairwise(d, a);
    CompatibleIsPairwise(d, b);
    CompatibleIsPairwise(d, a + b);
    PairwiseSplits(d, a, b);
    hide Compatible, Pairwise, Distinguishable;
  }

  lemma PairwiseSplits(d: Derivation, a: seq<Entry>, b: seq<Entry>)
    ensures Pairwise(d, a + b) <==>
            Pairwise(d, a) && Pairwise(d, b) && forall x, y :: x in a && y in b ==> Distinguishable(d, x, y)
  {
    hide DistinctStreams, Distinguishable;
    var all := a + b;
    assert forall i :: 0 <= i < |a| ==> all[i] == a[i];
    assert forall i :: 0 <= i < |b| ==> all[|a| + i] == b[i];
    assert forall i :: |a| <= i < |all| ==> all[i] == b[i - |a|];
    if Pairwise(d, all) {
      forall i, j | 0 <= i < j < |b| ensures Distinguishable(d, b[i], b[j]) {
        assert Distinguishable(d, all[|a| + i], all[|a| + j]);
      }
      forall i | 0 <= i < |b| ensures DistinctStreams(d, b[i].id) {
        assert DistinctStreams(d, all[|a| + i].id);
      }
      forall i, j | 0 <= i < j < |a| ensures Distinguishable(d, a[i], a[j]) {
        assert Distinguishable(d, all[i], all[j]);
      }
      forall x, y | x in a && y in b ensures Distinguishable(d, x, y) {
        var i, j :| 0 <= i < |a| && a[i] == x && 0 <= j < |b| && b[j] == y;
        assert Distinguishable(d, all[i], all[|a| + j]);
      }
    }
    if Pairwise(d, a) && Pairwise(d, b) && forall x, y :: x in a && y in b ==> Distinguishable(d, x, y) {
      forall i, j | 0 <= i < j < |all| ensures Distinguishable(d, all[i], all[j]) {
        if i < |a| <= j {
          assert all[i] in a && all[j] in b;
        }
      }
    }
  }

  lemma DistinguishableSymmetric(d: Derivation, a: Entry, b: Entry)
    ensures Distinguishable(d, a, b) <==> Distinguishable(d, b, a)
  {
  }

  predicate RemoteDevice(d: Derivation, device: Device) {
    device.hasPid && d.format(device.jid) != d.selfId
  }

  ghost predicate GoodDevices(d: Derivation, p: Participant, devices: seq<Device>) {
    && (forall j :: 0 <= j < |devices| && RemoteDevice(d, devices[j]) ==>
          DistinctStreams(d, d.format(devices[j].jid)))
    && (forall j, j' :: 0 <= j < |devices| && 0 <= j' < |devices| && j != j'
                        && RemoteDevice(d, devices[j]) && RemoteDevice(d, devices[j']) ==>
          Distinguishable(d, EntryOf(d, p, devices[j]), EntryOf(d, p, devices[j'])))
  }

  lemma {:induction false} GoodDevicesExactly(d: Derivation, p: Participant, devices: seq<Device>)
    ensures Compatible(d, DeviceEntries(d, p.jid, devices)) <==> GoodDevices(d, p, devices)
  {
    if devices != [] {
      var rest := devices[1..];
      GoodDevicesExactly(d, p, rest);
      var first := if RemoteDevice(d, devices[0]) then [EntryOf(d, p, devices[0])] else [];
      assert DeviceEntries(d, p.jid, devices) == first + DeviceEntries(d, p.jid, rest);
      CompatibleSplits(d, first, DeviceEntries(d, p.jid, rest));
      forall e ensures e in DeviceEntries(d, p.jid, rest) <==>
                       exists j :: 0 <= j < |rest| && RemoteDevice(d, rest[j]) && e == EntryOf(d, p, rest[j]) {
        DeviceEntriesExactly(d, p, rest, e);
      }
      GoodDevicesCons(d, p, devices);
      hide Compatible, GoodDevices, Distinguishable;
      assert Compatible(d, first) <==>
             (RemoteDevice(d, devices[0]) ==> DistinctStreams(d, d.format(devices[0].jid))) by {
        LoneEntry(d, p, devices[0]);
        NoEntry(d);
      }
    } else {
      NoEntry(d);
    }
  }

  lemma LoneEntry(d: Derivation, p: Participant, device: Device)
    ensures Compatible(d, [EntryOf(d, p, device)]) <==> DistinctStreams(d, d.format(device.jid))
  {
    hide DistinctStreams;
    assert [EntryOf(d, p, device)][0].id == d.format(device.jid);
  }

  lemma NoEntry(d: Derivation)
    ensures Compatible(d, [])
  {
  }

  lemma GoodDevicesCons(d: Derivation, p: Participant, devices: seq<Device>)
    requires devices != []
    ensures var rest := devices[1..];
            GoodDevices(d, p, devices) <==>
            && GoodDevices(d, p, rest)
            && (RemoteDevice(d, devices[0]) ==> DistinctStreams(d, d.format(devices[0].jid)))
            && (forall j :: 0 <= j < |rest| && RemoteDevice(d, devices[0]) && RemoteDevice(d, rest[j]) ==>
                  Distinguishable(d, EntryOf(d, p, devices[0]), EntryOf(d, p, rest[j])))
  {
    var rest := devices[1..];
    assert forall j :: 0 <= j < |rest| ==> rest[j] == devices[j + 1];
    assert forall j :: 1 <= j < |devices| ==> devices[j] == rest[j - 1];
    forall a, b ensures Distinguishable(d, a, b) <==> Distinguishable(d, b, a) {
      DistinguishableSymmetric(d, a, b);
    }
    hide Distinguishable, DistinctStreams, EntryOf, RemoteDevice;
  }

  /** The entries of two parts of a roster can be told apart. */
  ghost predicate PartsApart(d: Derivation, p: Participant, devices: seq<Device>, ps: seq<Participant>) {
    forall j, i', j' ::
      0 <= j < |devices| && RemoteDevice(d, devices[j])
      && 0 <= i' < |ps| && 0 <= j' < |ps[i'].devices| && Remote(d, ps, i', j') ==>
        Distinguishable(d, EntryOf(d, p, devices[j]), RemoteEntry(d, ps, i', j'))
  }

  lemma PartsApartExactly(d: Derivation, p: Participant, devices: seq<Device>, ps: seq<Participant>)
    ensures PartsApart(d, p, devices, ps) <==>
            forall x, y :: x in DeviceEntries(d, p.jid, devices) && y in Entries(d, ps) ==> Distinguishable(d, x, y)
  {
    hide Distinguishable;
    forall e ensures e in Entries(d, ps) <==> Listing(d, ps, e) {
      EntriesExactly(d, ps, e);
    }
    forall e ensures e in DeviceEntries(d, p.jid, devices) <==>
                     exists j :: 0 <= j < |devices| && RemoteDevice(d, devices[j]) && e == EntryOf(d, p, devices[j]) {
      DeviceEntriesExactly(d, p, devices, e);
    }
    hide DeviceEntries, Entries, EntryOf;
    if PartsApart(d, p, devices, ps) {
      forall x, y | x in DeviceEntries(d, p.jid, devices) && y in Entries(d, ps) ensures Distinguishable(d, x, y) {
        var j :| 0 <= j < |devices| && RemoteDevice(d, devices[j]) && x == EntryOf(d, p, devices[j]);
        var i', j' :| 0 <= i' < |ps| && 0 <= j' < |ps[i'].devices| && Remote(d, ps, i', j')
                      && y == EntryOf(d, ps[i'], ps[i'].devices[j']);
        assert y == RemoteEntry(d, ps, i', j');
      }
    } else {
      var j, i', j' :| 0 <= j < |devices| && RemoteDevice(d, devices[j])
                       && 0 <= i' < |ps| && 0 <= j' < |ps[i'].devices| && Remote(d, ps, i', j')
                       && !Distinguishable(d, EntryOf(d, p, devices[j]), RemoteEntry(d, ps, i', j'));
      var x, y := EntryOf(d, p, devices[j]), EntryOf(d, ps[i'], ps[i'].devices[j']);
      assert x in DeviceEntries(d, p.jid, devices) && Listing(d, ps, y) && RemoteEntry(d, ps, i', j') == y;
    }
  }

  /** The devices of a roster are those of its first participant and those of the others. */
  lemma RosterConsAt(d: Derivation, ps: seq<Participant>)
    requires ps != []
    ensures forall i, j :: 0 <= i < |ps[1..]| && 0 <= j < |ps[1..][i].devices| ==>
              ps[1..][i] == ps[i + 1]
              && Remote(d, ps[1..], i, j) == Remote(d, ps, i + 1, j)
              && RemoteEntry(d, ps[1..], i, j) == RemoteEntry(d, ps, i + 1, j)
    ensures forall j :: 0 <= j < |ps[0].devices| ==>
              (Remote(d, ps, 0, j) <==> ps[0].state == "connected" && RemoteDevice(d, ps[0].devices[j]))
              && RemoteEntry(d, ps, 0, j) == EntryOf(d, ps[0], ps[0].devices[j])
  {
  }

  lemma GoodRosterRest(d: Derivation, ps: seq<Participant>)
    requires ps != [] && GoodRoster(d, ps)
    ensures GoodRoster(d, ps[1..])
  {
    RosterConsAt(d, ps);
    var rest := ps[1..];
    forall i, j, i', j' |
      0 <= i < |rest| && 0 <= j < |rest[i].devices| && 0 <= i' < |rest| && 0 <= j' < |rest[i'].devices|
      && Remote(d, rest, i, j) && Remote(d, rest, i', j') && (i != i' || j != j')
      ensures Distinguishable(d, RemoteEntry(d, rest, i, j), RemoteEntry(d, rest, i', j'))
    {
      assert Distinguishable(d, RemoteEntry(d, ps, i + 1, j), RemoteEntry(d, ps, i' + 1, j'));
    }
    forall i, j | 0 <= i < |rest| && 0 <= j < |rest[i].devices| && Remote(d, rest, i, j)
      ensures DistinctStreams(d, d.format(rest[i].devices[j].jid))
    {
      assert Remote(d, ps, i + 1, j);
    }
  }

  lemma GoodRosterFirst(d: Derivation, ps: seq<Participant>)
    requires ps != [] && GoodRoster(d, ps) && ps[0].state == "connected"
    ensures GoodDevices(d, ps[0], ps[0].devices) && PartsApart(d, ps[0], ps[0].devices, ps[1..])
  {
    RosterConsAt(d, ps);
    hide DistinctStreams, Distinguishable;
    var p, rest := ps[0], ps[1..];
    forall j, j' | 0 <= j < |p.devices| && 0 <= j' < |p.devices| && j != j'
                   && RemoteDevice(d, p.devices[j]) && RemoteDevice(d, p.devices[j'])
      ensures Distinguishable(d, EntryOf(d, p, p.devices[j]), EntryOf(d, p, p.devices[j']))
    {
      assert Distinguishable(d, RemoteEntry(d, ps, 0, j), RemoteEntry(d, ps, 0, j'));
    }
    forall j, i', j' |
      0 <= j < |p.devices| && RemoteDevice(d, p.devices[j])
      && 0 <= i' < |rest| && 0 <= j' < |rest[i'].devices| && Remote(d, rest, i', j')
      ensures Distinguishable(d, EntryOf(d, p, p.devices[j]), RemoteEntry(d, rest, i', j'))
    {
      assert Distinguishable(d, RemoteEntry(d, ps, 0, j), RemoteEntry(d, ps, i' + 1, j'));
    }
    forall j | 0 <= j < |p.devices| && RemoteDevice(d, p.devices[j])
      ensures DistinctStreams(d, d.format(p.devices[j].jid))
    {
      assert Remote(d, ps, 0, j);
    }
  }

  lemma GoodRosterJoins(d: Derivation, ps: seq<Participant>)
    requires ps != [] && GoodRoster(d, ps[1..])
    requires ps[0].state == "connected" ==>
               GoodDevices(d, ps[0], ps[0].devices) && PartsApart(d, ps[0], ps[0].devices, ps[1..])
    ensures GoodRoster(d, ps)
  {
    RosterConsAt(d, ps);
    var p, rest := ps[0], ps[1..];
    forall a, b ensures Distinguishable(d, a, b) <==> Distinguishable(d, b, a) {
      DistinguishableSymmetric(d, a, b);
    }
    hide DistinctStreams, Distinguishable;
    forall i, j | 0 <= i < |ps| && 0 <= j < |ps[i].devices| && Remote(d, ps, i, j)
      ensures DistinctStreams(d, d.format(ps[i].devices[j].jid))
    {
      if i > 0 {
        assert Remote(d, rest, i - 1, j);
      }
    }
    forall i, j, i', j' |
      0 <= i < |ps| && 0 <= j < |ps[i].devices| && 0 <= i' < |ps| && 0 <= j' < |ps[i'].devices|
      && Remote(d, ps, i, j) && Remote(d, ps, i', j') && (i != i' || j != j')
      ensures Distinguishable(d, RemoteEntry(d, ps, i, j), RemoteEntry(d, ps, i', j'))
    {
      if i > 0 && i' > 0 {
        assert Distinguishable(d, RemoteEntry(d, rest, i - 1, j), RemoteEntry(d, rest, i' - 1, j'));
      } else if i > 0 {
        assert Remote(d, rest, i - 1, j);
        assert Distinguishable(d, EntryOf(d, p, p.devices[j']), RemoteEntry(d, rest, i - 1, j));
      } else if i' > 0 {
        assert Remote(d, rest, i' - 1, j');
        assert Distinguishable(d, EntryOf(d, p, p.devices[j]), RemoteEntry(d, rest, i' - 1, j'));
      } else {
        assert Distinguishable(d, EntryOf(d, p, p.devices[j]), EntryOf(d, p, p.devices[j']));
      }
    }
  }

  /** A roster is compatible exactly if its connected remote devices with a PID can be told apart. */
  lemma {:induction false} GoodRosterExactly(d: Derivation, ps: seq<Participant>)
    ensures Compatible(d, Entries(d, ps)) <==> GoodRoster(d, ps)
  {
    if ps == [] {
      NoEntry(d);
    } else {
      var p, rest := ps[0], ps[1..];
      GoodRosterExactly(d, rest);
      if GoodRoster(d, ps) {
        GoodRosterRest(d, ps);
      }
      if p.state == "connected" {
        if GoodRoster(d, ps) {
          GoodRosterFirst(d, ps);
        }
        GoodDevicesExactly(d, p, p.devices);
        PartsApartExactly(d, p, p.devices, rest);
        CompatibleSplits(d, DeviceEntries(d, p.jid, p.devices), Entries(d, rest));
        assert Entries(d, ps) == DeviceEntries(d, p.jid, p.devices) + Entries(d, rest);
      } else {
        assert Entries(d, ps) == Entries(d, rest);
      }
      hide Compatible, GoodDevices, PartsApart, Distinguishable;
      if Compatible(d, Entries(d, ps)) {
        GoodRosterJoins(d, ps);
      }
    }
  }

  /** Which updates take effect, with the order kept. */
  lemma AcceptsExactly(d: Derivation, l: Ledger, u: Update)
    requires Ordered(l)
    ensures Accepts(d, l, u) <==>
            && (l.hasUpdate ==> l.tx < u.tx)
            && GoodRoster(d, u.participants)
            && (!l.keyed ==> forall id :: Names(d, u.participants, id) ==> id in l.active)
  {
    OrderedNeverConflicts(l, u.tx);
    GoodRosterExactly(d, u.participants);
    NamesExactly(d, u.participants);
    hide Compatible, GoodRoster, Names, Select;
  }

  // ----- convergence -----

  datatype Event = RosterEvent(update: Update) | EpochEvent(epoch: Epoch)

  ghost function Apply(d: Derivation, l: Ledger, ev: Event): Ledger {
    match ev
    case RosterEvent(u) => ApplyUpdate(d, l, u)
    case EpochEvent(e) => ApplyEpoch(l, e)
  }

  ghost function Run(d: Derivation, l: Ledger, evs: seq<Event>): Ledger {
    if evs == [] then l
    else Apply(d, Run(d, l, evs[..|evs| - 1]), evs[|evs| - 1])
  }

  ghost predicate GoodUpdate(d: Derivation, u: Update) {
    GoodRoster(d, u.participants)
  }

  ghost predicate GoodEpoch(e: Epoch) {
    |e.key| == RAW_KEY_BYTES
  }

  /** No newer good epoch than transaction t is covered by a good update: t is either above the
      greatest good update, or that of the greatest good epoch not above it. */
  ghost predicate Decisive(d: Derivation, evs: seq<Event>, t: nat) {
    forall e, u :: EpochEvent(e) in evs && RosterEvent(u) in evs && GoodEpoch(e) && GoodUpdate(d, u) && t < e.tx ==>
      u.tx < e.tx
  }

  ghost predicate Disputed(evs: seq<Event>, a: Epoch, b: Epoch) {
    EpochEvent(a) in evs && EpochEvent(b) in evs && GoodEpoch(a) && GoodEpoch(b) && a.tx == b.tx && a != b
  }

  /** No two good epochs dispute a decisive transaction. */
  ghost predicate Unambiguous(d: Derivation, evs: seq<Event>) {
    forall a, b :: Disputed(evs, a, b) ==> !Decisive(d, evs, a.tx)
  }

  ghost predicate SameEvents(evs: seq<Event>, evs': seq<Event>) {
    forall ev :: ev in evs <==> ev in evs'
  }

  /** What a ledger holds after some events, said without their order or multiplicity: the
      greatest good update, the greatest good epoch not above it, all good epochs above it. */
  ghost predicate Summarizes(d: Derivation, evs: seq<Event>, l: Ledger) {
    && (l.hasUpdate ==> exists u :: RosterEvent(u) in evs && GoodUpdate(d, u) && u.tx == l.tx)
    && (forall u :: RosterEvent(u) in evs && GoodUpdate(d, u) ==> l.hasUpdate && u.tx <= l.tx)
    && (l.installed.Some? ==>
          && l.hasUpdate && EpochEvent(l.installed.value) in evs && GoodEpoch(l.installed.value)
          && l.installed.value.tx <= l.tx)
    && (forall t :: t in l.pending ==>
          && EpochEvent(Epoch(t, l.pending[t])) in evs && GoodEpoch(Epoch(t, l.pending[t]))
          && (l.hasUpdate ==> l.tx < t))
    && (forall e :: EpochEvent(e) in evs && GoodEpoch(e) ==>
          if l.hasUpdate && e.tx <= l.tx then l.installed.Some? && e.tx <= l.installed.value.tx
          else e.tx in l.pending)
  }

  lemma RosterSummarized(d: Derivation, evs: seq<Event>, l: Ledger, u: Update)
    requires Summarizes(d, evs, l) && Ordered(l) && l.keyed
    ensures Summarizes(d, evs + [RosterEvent(u)], ApplyUpdate(d, l, u))
  {
    assert forall x :: x in evs + [RosterEvent(u)] <==> x in evs || x == RosterEvent(u);
    OrderedNeverConflicts(l, u.tx);
    GoodRosterExactly(d, u.participants);
    hide Compatible, GoodRoster;
  }

  lemma EpochSummarized(d: Derivation, evs: seq<Event>, l: Ledger, e: Epoch)
    requires Summarizes(d, evs, l) && Ordered(l)
    ensures Summarizes(d, evs + [EpochEvent(e)], ApplyEpoch(l, e))
  {
    var all := evs + [EpochEvent(e)];
    assert forall x :: x in all <==> x in evs || x == EpochEvent(e);
    if GoodEpoch(e) && e.tx in l.pending {
      assert EpochEvent(Epoch(e.tx, l.pending[e.tx])) in all;
    }
  }

  /** After any run of updates and epochs, in any order and with any duplication, the ledger is an
      order-free summary of the events; of disputed keys it holds some one. */
  lemma {:induction false} RunSummarizes(d: Derivation, fallback: string, evs: seq<Event>)
    ensures Summarizes(d, evs, Run(d, Fresh(fallback), evs))
    ensures Ordered(Run(d, Fresh(fallback), evs))
    ensures Run(d, Fresh(fallback), evs).keyed
    decreases |evs|
  {
    if evs != [] {
      var front, last := evs[..|evs| - 1], evs[|evs| - 1];
      assert evs == front + [last];
      RunSummarizes(d, fallback, front);
      var l := Run(d, Fresh(fallback), front);
      match last
      case RosterEvent(u) => RosterSummarized(d, front, l, u);
      case EpochEvent(e) => EpochSummarized(d, front, l, e);
    }
  }

  /** The roster transaction, the installed epoch and the pending epochs agree. */
  ghost predicate Agree(l: Ledger, l': Ledger) {
    && l.hasUpdate == l'.hasUpdate && (l.hasUpdate ==> l.tx == l'.tx)
    && l.installed == l'.installed && l.pending == l'.pending
  }

  lemma Undisputed(d: Derivation, evs: seq<Event>, a: Epoch, b: Epoch)
    requires Unambiguous(d, evs) && EpochEvent(a) in evs && EpochEvent(b) in evs && GoodEpoch(a) && GoodEpoch(b)
    requires a.tx == b.tx && Decisive(d, evs, a.tx)
    ensures a == b
  {
    assert Disputed(evs, a, b) <==> a != b;
  }

  lemma SummaryIsUnique(d: Derivation, evs: seq<Event>, evs': seq<Event>, l: Ledger, l': Ledger)
    requires SameEvents(evs, evs') && Unambiguous(d, evs)
    requires Summarizes(d, evs, l) && Summarizes(d, evs', l')
    ensures Agree(l, l')
  {
    if l.installed.Some? {
      assert EpochEvent(l.installed.value) in evs';
    }
    if l'.installed.Some? {
      assert EpochEvent(l'.installed.value) in evs;
    }
    if l.installed.Some? && l'.installed.Some? {
      assert Decisive(d, evs, l.installed.value.tx);
      Undisputed(d, evs, l.installed.value, l'.installed.value);
    }
    forall t | t in l.pending ensures t in l'.pending && l'.pending[t] == l.pending[t] {
      assert EpochEvent(Epoch(t, l.pending[t])) in evs';
      assert EpochEvent(Epoch(t, l'.pending[t])) in evs;
      assert Decisive(d, evs, t);
      Undisputed(d, evs, Epoch(t, l.pending[t]), Epoch(t, l'.pending[t]));
    }
    forall t | t in l'.pending ensures t in l.pending {
      assert EpochEvent(Epoch(t, l'.pending[t])) in evs;
    }
  }

  /** Event k brought the roster in force: a good update of the ledger's transaction.  Its connected
      remote devices with a PID are active; without any, so is the fallback peer, if it was active
      when the update came. */
  ghost predicate InForce(d: Derivation, f: string, evs: seq<Event>, k: nat)
    requires k < |evs|
  {
    && evs[k].RosterEvent?
    && var u, l := evs[k].update, Run(d, Fresh(f), evs);
       && GoodUpdate(d, u) && u.tx == l.tx
       && ActiveUnder(d, u.participants, Run(d, Fresh(f), evs[..k]).active, f, l.active)
  }

  lemma {:induction false} RunKeepsFallback(d: Derivation, f: string, evs: seq<Event>)
    ensures Run(d, Fresh(f), evs).fallback == f && Run(d, Fresh(f), evs).keyed
    decreases |evs|
  {
    if evs != [] {
      RunKeepsFallback(d, f, evs[..|evs| - 1]);
    }
  }

  /** After any run that accepted an update, exactly the devices its roster names are active. */
  lemma {:induction false} RunShowsRoster(d: Derivation, f: string, evs: seq<Event>)
    ensures Run(d, Fresh(f), evs).hasUpdate ==> exists k :: 0 <= k < |evs| && InForce(d, f, evs, k)
    ensures !Run(d, Fresh(f), evs).hasUpdate ==> Run(d, Fresh(f), evs).active == {f}
    decreases |evs|
  {
    if evs != [] {
      var n := |evs| - 1;
      var front, last := evs[..n], evs[n];
      RunShowsRoster(d, f, front);
      RunKeepsFallback(d, f, front);
      var l := Run(d, Fresh(f), front);
      hide Compatible, Select, GoodRoster, ActiveUnder;
      if last.RosterEvent? && Accepts(d, l, last.update) {
        CommitActivates(d, l, last.update);
        GoodRosterExactly(d, last.update.participants);
        assert InForce(d, f, evs, n);
      } else if l.hasUpdate {
        var k :| 0 <= k < n && InForce(d, f, front, k);
        assert front[..k] == evs[..k] && front[k] == evs[k];
        assert InForce(d, f, evs, k);
      }
    }
  }

  /** Convergence: two runs over the same events, whatever their order and duplication, agree on
      the roster transaction, the installed epoch and the pending epochs; and when the good update
      with the greatest transaction is one and has a connected remote PID, on the active devices. */
  lemma Convergence(d: Derivation, f: string, f': string, evs: seq<Event>, evs': seq<Event>)
    requires SameEvents(evs, evs') && Unambiguous(d, evs)
    ensures Agree(Run(d, Fresh(f), evs), Run(d, Fresh(f'), evs'))
    ensures var l, l' := Run(d, Fresh(f), evs), Run(d, Fresh(f'), evs');
            l.hasUpdate && SoleRoster(d, evs, l.tx) ==> l.active == l'.active
  {
    RunSummarizes(d, f, evs);
    RunSummarizes(d, f', evs');
    SummaryIsUnique(d, evs, evs', Run(d, Fresh(f), evs), Run(d, Fresh(f'), evs'));
    RunShowsRoster(d, f, evs);
    RunShowsRoster(d, f', evs');
    var l, l' := Run(d, Fresh(f), evs), Run(d, Fresh(f'), evs');
    if l.hasUpdate {
      var k :| 0 <= k < |evs| && InForce(d, f, evs, k);
      var k' :| 0 <= k' < |evs'| && InForce(d, f', evs', k');
      assert evs[k] in evs && evs'[k'] in evs';
      assert GoodAt(d, evs, evs[k].update, l.tx) && GoodAt(d, evs, evs'[k'].update, l.tx);
    }
  }

  ghost predicate GoodAt(d: Derivation, evs: seq<Event>, u: Update, tx: nat) {
    RosterEvent(u) in evs && GoodUpdate(d, u) && u.tx == tx
  }

  /** The good updates of a transaction are one, with a connected remote PID. */
  ghost predicate SoleRoster(d: Derivation, evs: seq<Event>, tx: nat) {
    && (forall u :: GoodAt(d, evs, u, tx) ==> NamesAny(d, u.participants))
    && (forall u, w :: GoodAt(d, evs, u, tx) && GoodAt(d, evs, w, tx) ==> u == w)
  }

  // ----- exactly when runs converge -----

  /** The key of a's transaction is a's, or beside the point. */
  ghost predicate Holds(l: Ledger, a: Epoch) {
    || (a.tx in l.pending && l.pending[a.tx] == a.key)
    || (l.installed.Some? && (l.installed.value == a || a.tx < l.installed.value.tx))
  }

  lemma HoldsKept(d: Derivation, l: Ledger, a: Epoch, ev: Event)
    requires Ordered(l) && Holds(l, a)
    ensures Holds(Apply(d, l, ev), a)
  {
  }

  /** An epoch that arrives first keeps its transaction from every other key. */
  lemma {:induction false} FirstKeyHolds(d: Derivation, f: string, a: Epoch, evs: seq<Event>)
    requires GoodEpoch(a)
    ensures Holds(Run(d, Fresh(f), [EpochEvent(a)] + evs), a)
    decreases |evs|
  {
    var all := [EpochEvent(a)] + evs;
    if evs == [] {
      assert all == [EpochEvent(a)] && all[..0] == [];
    } else {
      var front := evs[..|evs| - 1];
      assert all[..|all| - 1] == [EpochEvent(a)] + front;
      FirstKeyHolds(d, f, a, front);
      RunSummarizes(d, f, [EpochEvent(a)] + front);
      HoldsKept(d, Run(d, Fresh(f), [EpochEvent(a)] + front), a, evs[|evs| - 1]);
    }
  }

  lemma NothingNewerIsCovered(d: Derivation, evs: seq<Event>, all: seq<Event>, l: Ledger, t: nat)
    requires SameEvents(evs, all) && Summarizes(d, all, l) && Decisive(d, evs, t)
    ensures l.installed.Some? ==> l.installed.value.tx <= t
  {
  }

  /** At a decisive transaction the first key is what the ledger ends with. */
  lemma FirstKeyWins(d: Derivation, f: string, a: Epoch, evs: seq<Event>)
    requires GoodEpoch(a) && EpochEvent(a) in evs && Decisive(d, evs, a.tx)
    ensures SameEvents(evs, [EpochEvent(a)] + evs)
    ensures var l := Run(d, Fresh(f), [EpochEvent(a)] + evs);
            (a.tx in l.pending && l.pending[a.tx] == a.key) || l.installed == Some(a)
  {
    var all := [EpochEvent(a)] + evs;
    assert SameEvents(evs, all);
    FirstKeyHolds(d, f, a, evs);
    RunSummarizes(d, f, all);
    NothingNewerIsCovered(d, evs, all, Run(d, Fresh(f), all), a.tx);
  }

  lemma DisputeDiverges(d: Derivation, f: string, a: Epoch, b: Epoch, evs: seq<Event>)
    requires Disputed(evs, a, b) && Decisive(d, evs, a.tx)
    ensures SameEvents(evs, [EpochEvent(a)] + evs) && SameEvents(evs, [EpochEvent(b)] + evs)
    ensures !Agree(Run(d, Fresh(f), [EpochEvent(a)] + evs), Run(d, Fresh(f), [EpochEvent(b)] + evs))
  {
    FirstKeyWins(d, f, a, evs);
    FirstKeyWins(d, f, b, evs);
    RunSummarizes(d, f, [EpochEvent(a)] + evs);
    hide Run, Summarizes, Disputed, Decisive;
  }

  /** All orders and duplications of some events agree. */
  ghost predicate Converges(d: Derivation, f: string, evs: seq<Event>) {
    forall one, two :: SameEvents(evs, one) && SameEvents(evs, two) ==>
      Agree(Run(d, Fresh(f), one), Run(d, Fresh(f), two))
  }

  /** All orders and duplications of some events agree exactly when no two good epochs with
      different keys share a transaction that is above the greatest good update or that of the
      greatest good epoch not above it. */
  lemma ConvergesExactly(d: Derivation, f: string, evs: seq<Event>)
    ensures Converges(d, f, evs) <==> Unambiguous(d, evs)
  {
    hide Run, Decisive, Agree, Disputed;
    if Unambiguous(d, evs) {
      forall one, two | SameEvents(evs, one) && SameEvents(evs, two)
        ensures Agree(Run(d, Fresh(f), one), Run(d, Fresh(f), two))
      {
        StillUnambiguous(d, evs, one);
        Convergence(d, f, f, one, two);
      }
    } else {
      var a, b :| Disputed(evs, a, b) && Decisive(d, evs, a.tx);
      DisputeDiverges(d, f, a, b, evs);
    }
  }

  lemma StillUnambiguous(d: Derivation, evs: seq<Event>, evs': seq<Event>)
    requires SameEvents(evs, evs') && Unambiguous(d, evs)
    ensures Unambiguous(d, evs')
  {
    forall a, b | Disputed(evs', a, b) ensures !Decisive(d, evs', a.tx) {
      assert Disputed(evs, a, b);
    }
  }
}
