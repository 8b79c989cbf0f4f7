/**
  The group media receive registry: one receiver object per remote device, six index maps over
  the receivers, and the send pipelines that share the installed raw key epoch.

  Keys are free terms over the secret and participant id they were derived from, so two keys are
  equal here only if every derivation function makes them equal.  A receiver owns its three
  pipelines and its SRTCP receiver, which are stored in it by value.
 */
module GroupReceive {
  import opened Common
  import opened GroupLedger

  datatype Keys =
    | Zero
    | FromCall(callKey: Bytes, id: string)
    | FromCallRtcp(callKey: Bytes, id: string)
    | FromRaw(raw: Bytes, id: string)
    | FromRawRtcp(raw: Bytes, id: string)

  /** roc stands for the whole receive rollover tracker; 0 is the freshly reset one. */
  datatype Pipe = Pipe(send: Keys, recv: Keys, roc: nat)

  function InstallSend(p: Pipe, k: Keys): Pipe { p.(send := k) }

  function InstallRecvPreservingRoc(p: Pipe, k: Keys): Pipe { p.(recv := k) }

  function InstallRecv(p: Pipe, k: Keys): Pipe { p.(recv := k, roc := 0) }

  const ZERO_PIPE := Pipe(Zero, Zero, 0)

  /** A pipeline object attached to the registry for sending. */
  class MediaPipeline {
    var state: Pipe
    constructor (state: Pipe)
      ensures this.state == state
    {
      this.state := state;
    }
  }

  class SrtcpSender {
    var keys: Keys
    constructor (keys: Keys)
      ensures this.keys == keys
    {
      this.keys := keys;
    }
  }

  /** The three receive pipelines of a device and its SRTCP receiver. */
  datatype Crypto = Crypto(audio: Pipe, video: Pipe, appData: Pipe, srtcp: Keys)
  {
    predicate KeyedByCall(callKey: Bytes, id: string) {
      audio.recv == video.recv == appData.recv == FromCall(callKey, id) && srtcp == FromCallRtcp(callKey, id)
    }

    predicate KeyedByRaw(raw: Bytes, id: string) {
      audio.recv == video.recv == appData.recv == FromRaw(raw, id) && srtcp == FromRawRtcp(raw, id)
    }

    /** The receive rollover trackers. */
    function Rocs(): (nat, nat, nat) {
      (audio.roc, video.roc, appData.roc)
    }

    function Erased(): Crypto {
      Crypto(InstallRecv(InstallSend(audio, Zero), Zero), InstallRecv(InstallSend(video, Zero), Zero),
             InstallRecv(InstallSend(appData, Zero), Zero), Zero)
    }

    function Rekeyed(keys: Keys, rtcp: Keys): Crypto {
      Crypto(InstallRecvPreservingRoc(audio, keys), InstallRecvPreservingRoc(video, keys),
             InstallRecvPreservingRoc(appData, keys), rtcp)
    }
  }

  const ZERO_CRYPTO := Crypto(ZERO_PIPE, ZERO_PIPE, ZERO_PIPE, Zero)

  function CallCrypto(selfId: string, callKey: Bytes, id: string): Crypto {
    var p := Pipe(FromCall(callKey, selfId), FromCall(callKey, id), 0);
    Crypto(p, p, p, FromCallRtcp(callKey, id))
  }

  datatype Profile = Profile(user: string, device: string, pid: nat, hasPid: bool)

  class Receiver {
    const participantId: string
    const streams: seq<nat>
    const ssrc: nat
    const videoSsrc: nat
    const appDataSsrc: nat
    var profile: Profile
    var crypto: Crypto

    constructor (d: Derivation, callKey: Bytes, id: string, profile: Profile)
      ensures Derived(d, id) && crypto == CallCrypto(d.selfId, callKey, id) && this.profile == profile
    {
      participantId := id;
      streams := d.streams(id);
      ssrc := d.streams(id)[AUDIO_STREAM];
      videoSsrc := d.streams(id)[VIDEO_STREAM];
      appDataSsrc := d.streams(id)[APP_DATA_STREAM];
      this.profile := profile;
      crypto := CallCrypto(d.selfId, callKey, id);
    }

    ghost predicate Derived(d: Derivation, id: string) {
      && participantId == id && streams == d.streams(id)
      && ssrc == streams[AUDIO_STREAM] && videoSsrc == streams[VIDEO_STREAM] && appDataSsrc == streams[APP_DATA_STREAM]
    }
  }

  ghost predicate AllKeyed(rs: set<Receiver>, callKey: Bytes)
    reads rs
  {
    forall r :: r in rs ==> r.crypto.KeyedByCall(callKey, r.participantId)
  }

  /** All these receivers and senders run on one epoch, or the receivers on the call key. */
  ghost predicate KeysAgree(selfId: string, callKey: Bytes, epoch: Option<Bytes>,
                            rs: set<Receiver>, pipes: seq<MediaPipeline>, senders: seq<SrtcpSender>)
    reads rs, pipes, senders
  {
    match epoch
    case None => AllKeyed(rs, callKey)
    case Some(raw) =>
      && (forall r :: r in rs ==> r.crypto.KeyedByRaw(raw, r.participantId))
      && (forall p :: p in pipes ==> p.state.send == FromRaw(raw, selfId))
      && (forall s :: s in senders ==> s.keys == FromRawRtcp(raw, selfId))
  }

  ghost function RocsOf(dev: Index<string>): map<string, (nat, nat, nat)>
    reads dev.Values
  {
    map id | id in dev :: dev[id].crypto.Rocs()
  }

  /** From one device map, with these rollover trackers, to the next: a device in both keeps its
      receiver and its trackers, and the receiver of a device no longer there has zeroed keys. */
  ghost predicate Continues(before: Index<string>, rocs: map<string, (nat, nat, nat)>, after: Index<string>)
    reads before.Values
  {
    forall id :: id in before ==>
      if id in after then id in rocs && after[id] == before[id] && before[id].crypto.Rocs() == rocs[id]
      else before[id].crypto == ZERO_CRYPTO
  }

  ghost function ProfilesOf(dev: Index<string>): map<string, Profile>
    reads dev.Values
  {
    map id | id in dev :: dev[id].profile
  }

  /** The receivers of devices that had one carry the profiles they had. */
  ghost predicate KeepsProfiles(profiles: map<string, Profile>, dev: Index<string>)
    reads dev.Values
  {
    forall id :: id in profiles && id in dev ==> dev[id].profile == profiles[id]
  }

  type Index<!K> = map<K, Receiver>

  /** The six maps a roster is looked up through. */
  datatype Indexes = Indexes(
    byDevice: Index<string>,
    byPid: Index<nat>,
    bySsrc: Index<nat>,
    byVideo: Index<nat>,
    byAppData: Index<nat>,
    bySrtcp: Index<nat>)

  const NO_INDEXES := Indexes(map[], map[], map[], map[], map[], map[])

  function SsrcOf(r: Receiver): nat { r.ssrc }
  function VideoOf(r: Receiver): nat { r.videoSsrc }
  function AppDataOf(r: Receiver): nat { r.appDataSsrc }

  ghost predicate Member(dev: Index<string>, r: Receiver) {
    r.participantId in dev && dev[r.participantId] == r
  }

  /** m is the inverse index of the receivers of dev under the attribute f. */
  ghost predicate InverseUnder(dev: Index<string>, m: Index<nat>, f: Receiver -> nat) {
    && (forall id :: id in dev ==> f(dev[id]) in m && m[f(dev[id])] == dev[id])
    && (forall s :: s in m ==> Member(dev, m[s]) && f(m[s]) == s)
  }

  /** m leads from each of the nine streams of each receiver of dev to it, and from nothing else. */
  ghost predicate StreamInverse(dev: Index<string>, m: Index<nat>) {
    && (forall id :: id in dev ==> |dev[id].streams| == 9)
    && (forall id, a :: id in dev && 0 <= a < 9 ==> dev[id].streams[a] in m && m[dev[id].streams[a]] == dev[id])
    && (forall s :: s in m ==> Member(dev, m[s]) && s in m[s].streams)
  }

  ghost predicate AllDerived(d: Derivation, dev: Index<string>) {
    forall id :: id in dev ==> dev[id].Derived(d, id)
  }

  ghost predicate PidsKnown(dev: Index<string>, m: Index<nat>) {
    forall p :: p in m ==> Member(dev, m[p])
  }

  /** The maps are exactly the inverse indexes of one set of receivers. */
  ghost predicate Inverse(d: Derivation, x: Indexes) {
    && AllDerived(d, x.byDevice)
    && InverseUnder(x.byDevice, x.bySsrc, SsrcOf)
    && InverseUnder(x.byDevice, x.byVideo, VideoOf)
    && InverseUnder(x.byDevice, x.byAppData, AppDataOf)
    && StreamInverse(x.byDevice, x.bySrtcp)
    && PidsKnown(x.byDevice, x.byPid)
  }

  /** Each PID entry leads to a receiver carrying that PID. */
  ghost predicate PidsCarried(x: Indexes)
    reads x.byPid.Values
  {
    forall p :: p in x.byPid ==> x.byPid[p].profile.hasPid && x.byPid[p].profile.pid == p
  }

  /** The maps of a registry that knows one receiver and no PID. */
  function Single(r: Receiver): Indexes
    requires |r.streams| == 9
  {
    Indexes(map[r.participantId := r], map[], map[r.ssrc := r], map[r.videoSsrc := r], map[r.appDataSsrc := r],
            WithStreams(map[], r, 9))
  }

  datatype Metadata = Metadata(receiver: Receiver, profile: Profile)

  function ProfileOf(e: Entry): Profile {
    Profile(e.user, e.device, e.pid, true)
  }

  /** A roster under preparation. */
  datatype Prepared = Prepared(x: Indexes, metadata: seq<Metadata>, created: set<Receiver>)

  /** The maps and metadata list exactly the devices es. */
  ghost predicate Listed(es: seq<Entry>, x: Indexes, metadata: seq<Metadata>) {
    && x.byDevice.Keys == Ids(es)
    && x.byPid.Keys == Pids(es)
    && |metadata| == |es|
    && (forall i :: 0 <= i < |es| ==>
          es[i].id in x.byDevice && es[i].pid in x.byPid && x.byPid[es[i].pid] == x.byDevice[es[i].id])
    && (forall i :: 0 <= i < |es| ==>
          metadata[i] == Metadata(x.byDevice[es[i].id], ProfileOf(es[i])))
  }

  /** Known devices keep their receiver; the others have a newly created one. */
  ghost predicate Reuses(known: Index<string>, dev: Index<string>, created: set<Receiver>) {
    forall id :: id in dev ==> if id in known then dev[id] == known[id] else dev[id] in created
  }

  /** The preparation has taken in exactly the devices es. */
  ghost predicate PreparedFor(d: Derivation, known: Index<string>, es: seq<Entry>, p: Prepared) {
    Inverse(d, p.x) && Listed(es, p.x, p.metadata) && Reuses(known, p.x.byDevice, p.created) && Compatible(d, es)
  }

  const NOTHING_PREPARED := Prepared(NO_INDEXES, [], {})

  /** The metadata to write covers exactly the PID map, each receiver once. */
  ghost predicate PidListed(es: seq<Entry>, x: Indexes, metadata: seq<Metadata>) {
    && x.byPid.Keys == Pids(es)
    && |metadata| == |es|
    && (forall i :: 0 <= i < |es| ==>
          && es[i].pid in x.byPid && metadata[i].receiver == x.byPid[es[i].pid]
          && es[i].id in x.byDevice && metadata[i].receiver == x.byDevice[es[i].id]
          && metadata[i].profile == ProfileOf(es[i]))
    && (forall i, j :: 0 <= i < j < |es| ==> metadata[i].receiver != metadata[j].receiver)
  }

  lemma ListedPids(d: Derivation, known: Index<string>, es: seq<Entry>, p: Prepared)
    requires PreparedFor(d, known, es, p)
    ensures PidListed(es, p.x, p.metadata)
  {
    assert Listed(es, p.x, p.metadata) && AllDerived(d, p.x.byDevice);
    forall i, j | 0 <= i < j < |es| ensures p.metadata[i].receiver != p.metadata[j].receiver {
      assert p.metadata[i].receiver.participantId == es[i].id;
      assert p.metadata[j].receiver.participantId == es[j].id;
    }
  }

  /** Each of these devices has a receiver that carries its profile, under its id and its PID, and
      there are no other PIDs. */
  ghost predicate Carries(es: seq<Entry>, x: Indexes)
    reads x.byDevice.Values
  {
    && x.byPid.Keys == Pids(es)
    && (forall i :: 0 <= i < |es| ==>
          && es[i].id in x.byDevice && x.byDevice[es[i].id].profile == ProfileOf(es[i])
          && es[i].pid in x.byPid && x.byPid[es[i].pid] == x.byDevice[es[i].id])
  }

  /** The same of the connected remote devices of a roster. */
  ghost predicate CarriesRoster(d: Derivation, ps: seq<Participant>, x: Indexes)
    reads x.byDevice.Values
  {
    && (forall pid :: pid in x.byPid <==> NamesPid(d, ps, pid))
    && (forall i, j :: 0 <= i < |ps| && 0 <= j < |ps[i].devices| && Remote(d, ps, i, j) ==>
          var device := ps[i].devices[j];
          && d.format(device.jid) in x.byDevice
          && x.byDevice[d.format(device.jid)].profile == Profile(ps[i].jid, device.jid, device.pid, true)
          && device.pid in x.byPid && x.byPid[device.pid] == x.byDevice[d.format(device.jid)])
  }

  lemma RosterCarried(d: Derivation, ps: seq<Participant>, x: Indexes)
    requires Carries(Entries(d, ps), x)
    ensures CarriesRoster(d, ps, x)
  {
    var es := Entries(d, ps);
    forall pid ensures pid in x.byPid <==> NamesPid(d, ps, pid) {
      NamesPidExactly(d, ps, pid);
    }
    hide NamesPid;
    forall i, j | 0 <= i < |ps| && 0 <= j < |ps[i].devices| && Remote(d, ps, i, j)
      ensures var e := EntryOf(d, ps[i], ps[i].devices[j]);
              && e.id in x.byDevice && x.byDevice[e.id].profile == ProfileOf(e)
              && e.pid in x.byPid && x.byPid[e.pid] == x.byDevice[e.id]
    {
      EntriesExactly(d, ps, EntryOf(d, ps[i], ps[i].devices[j]));
    }
  }

  lemma WrittenIsCarried(es: seq<Entry>, x: Indexes, metadata: seq<Metadata>)
    requires PidListed(es, x, metadata)
    requires forall i :: 0 <= i < |metadata| ==> metadata[i].receiver.profile == metadata[i].profile
    ensures PidsCarried(x) && Carries(es, x)
  {
    forall i | 0 <= i < |es| ensures es[i].pid in x.byPid {
      IdAt(es, i);
    }
    forall p | p in x.byPid ensures x.byPid[p].profile.hasPid && x.byPid[p].profile.pid == p {
      var i := FindPid(es, p);
      assert metadata[i].receiver == x.byPid[p];
    }
  }

  /** A prepared update, ready to commit. */
  datatype Plan = Plan(
    tx: nat,
    x: Indexes,
    metadata: seq<Metadata>,
    created: set<Receiver>,
    consumed: set<nat>,
    epoch: Epoch,
    keys: Option<PreparedEpoch>,
    replace: bool)

  /** The prepared keys are those of one raw epoch, for exactly these receivers. */
  ghost predicate KeysOf(selfId: string, raw: Bytes, receivers: set<Receiver>, p: PreparedEpoch) {
    && p.send == FromRaw(raw, selfId) && p.sendRtcp == FromRawRtcp(raw, selfId)
    && p.receive.Keys == p.receiveRtcp.Keys == receivers
    && (forall r :: r in receivers ==>
          p.receive[r] == FromRaw(raw, r.participantId) && p.receiveRtcp[r] == FromRawRtcp(raw, r.participantId))
  }

  /** Attempts made by the update callback: how often it ran commit, and whether it then failed. */
  datatype Callback = Callback(commits: nat, fails: bool)

  class Registry {
    const d: Derivation
    var callKey: Bytes
    var fallbackId: string
    var transactionId: nat
    var rosterGeneration: nat
    var hasGroupUpdate: bool
    var x: Indexes
    var sendPipes: seq<MediaPipeline>
    var srtcpSenders: seq<SrtcpSender>
    var pendingEpochs: map<nat, Bytes>
    var installedEpoch: Epoch
    var hasEpoch: bool

    ghost function View(): Ledger reads this {
      Ledger(hasGroupUpdate, transactionId, x.byDevice.Keys, fallbackId, |callKey| >= RAW_KEY_BYTES,
             if hasEpoch then Some(installedEpoch) else None, pendingEpochs)
    }

    ghost function Receivers(): set<Receiver> reads this {
      x.byDevice.Values
    }

    ghost function EpochKey(): Option<Bytes> reads this {
      if hasEpoch then Some(installedEpoch.key) else None
    }

    /** Index coherence, epoch order, and key agreement: every active receiver and every attached
        sender holds keys of the one installed epoch; before any epoch the receivers hold the
        call key's. */
    ghost predicate Valid()
      reads this, Receivers(), x.byPid.Values, sendPipes, srtcpSenders
    {
      && Inverse(d, x)
      && PidsCarried(x)
      && Ordered(View())
      && KeysAgree(d.selfId, callKey, EpochKey(), Receivers(), sendPipes, srtcpSenders)
    }

    constructor (d: Derivation, callKey: Bytes, user: string, device: string)
      requires |callKey| >= RAW_KEY_BYTES
      ensures Valid() && fresh(Receivers())
      ensures View() == Fresh(d.format(device))
      ensures this.d == d && this.callKey == callKey && sendPipes == [] && srtcpSenders == []
    {
      var r := new Receiver(d, callKey, d.format(device), Profile(user, device, 0, false));
      this.d, this.callKey, fallbackId := d, callKey, r.participantId;
      transactionId, rosterGeneration, hasGroupUpdate := 0, 0, false;
      x := Single(r);
      sendPipes, srtcpSenders, pendingEpochs := [], [], map[];
      installedEpoch, hasEpoch := Epoch(0, []), false;
      new;
      SingleInverse(d, r);
    }

    /** The receiver a device already has, or a new one keyed by the call key while there is one. */
    method FindOrCreate(e: Entry, created: set<Receiver>) returns (r: Receiver?, created': set<Receiver>)
      requires AllDerived(d, x.byDevice) && AllKeyed(created, callKey)
      ensures r != null <==> e.id in x.byDevice || |callKey| >= RAW_KEY_BYTES
      ensures r != null ==> r.Derived(d, e.id)
      ensures r != null && e.id in x.byDevice ==> r == x.byDevice[e.id]
      ensures r != null && e.id !in x.byDevice ==> r in created'
      ensures created <= created'
      ensures fresh(created' - created) && AllKeyed(created', callKey)
    {
      created' := created;
      if e.id in x.byDevice {
        return x.byDevice[e.id], created;
      }
      if |callKey| < RAW_KEY_BYTES {
        return null, created;
      }
      r := new Receiver(d, callKey, e.id, ProfileOf(e));
      created' := created + {r};
    }

    /** Takes one device into the preparation, or finds out why it cannot be. */
    method AddDevice(p: Prepared, ghost es: seq<Entry>, e: Entry) returns (ok: bool, q: Prepared)
      requires PreparedFor(d, x.byDevice, es, p) && AllDerived(d, x.byDevice) && AllKeyed(p.created, callKey)
      ensures ok <==> Compatible(d, es + [e]) && (e.id in x.byDevice || |callKey| >= RAW_KEY_BYTES)
      ensures ok ==> PreparedFor(d, x.byDevice, es + [e], q)
      ensures p.created <= q.created
      ensures fresh(q.created - p.created) && AllKeyed(q.created, callKey)
    {
      if e.id in p.x.byDevice {
        var i := FindId(es, e.id);
        CompatibleSnoc(d, es, e);
        return false, p;
      }
      var r, created := FindOrCreate(e, p.created);
      if r == null {
        return false, p;
      }
      ok, q := Admit(d, x.byDevice, p.(created := created), es, e, r);
    }

    ghost predicate Keyable(es: seq<Entry>) reads this {
      |callKey| >= RAW_KEY_BYTES || Ids(es) <= x.byDevice.Keys
    }

    /** The preparation can take in these devices, and q is it. */
    ghost predicate Outcome(ok: bool, es: seq<Entry>, q: Prepared) reads this {
      && (ok <==> Compatible(d, es) && Keyable(es))
      && (ok ==> PreparedFor(d, x.byDevice, es, q))
    }

    /** Takes in one device of a connected participant unless it has no PID or is this client. */
    method AddIfRemote(p: Prepared, ghost es: seq<Entry>, user: string, device: Device) returns (ok: bool, q: Prepared)
      requires Outcome(true, es, p) && AllDerived(d, x.byDevice) && AllKeyed(p.created, callKey)
      ensures Outcome(ok, es + DeviceEntries(d, user, [device]), q)
      ensures p.created <= q.created && fresh(q.created - p.created) && AllKeyed(q.created, callKey)
    {
      hide PreparedFor, AllDerived, AllKeyed, Compatible;
      var id := d.format(device.jid);
      if !device.hasPid || id == d.selfId {
        assert es + DeviceEntries(d, user, [device]) == es;
        return true, p;
      }
      var e := Entry(id, user, device.jid, device.pid);
      assert DeviceEntries(d, user, [device]) == [e];
      IdsSnoc(es, e);
      ok, q := AddDevice(p, es, e);
    }

    /** Takes in the devices of one connected participant. */
    method AddDevices(p: Prepared, ghost es: seq<Entry>, user: string, devices: seq<Device>)
      returns (ok: bool, q: Prepared)
      requires Outcome(true, es, p) && AllDerived(d, x.byDevice) && AllKeyed(p.created, callKey)
      ensures Outcome(ok, es + DeviceEntries(d, user, devices), q)
      ensures p.created <= q.created && fresh(q.created - p.created) && AllKeyed(q.created, callKey)
    {
      hide Outcome, PreparedFor, AllDerived, AllKeyed, Compatible;
      q := p;
      assert es + DeviceEntries(d, user, devices[..0]) == es;
      for j := 0 to |devices|
        invariant Outcome(true, es + DeviceEntries(d, user, devices[..j]), q)
        invariant p.created <= q.created && fresh(q.created - p.created) && AllKeyed(q.created, callKey)
      {
        ghost var sofar := es + DeviceEntries(d, user, devices[..j]);
        SplitDevices(d, es, user, devices, j);
        ok, q := AddIfRemote(q, sofar, user, devices[j]);
        if !ok {
          RefusedStaysRefused(
            sofar + DeviceEntries(d, user, [devices[j]]), DeviceEntries(d, user, devices[j + 1..]), q);
          return;
        }
      }
      assert devices[..|devices|] == devices;
      ok := true;
    }

    lemma NothingPrepared()
      ensures Outcome(true, [], NOTHING_PREPARED) && AllKeyed({}, callKey)
    {
    }

    lemma RefusedStaysRefused(es: seq<Entry>, more: seq<Entry>, q: Prepared)
      requires Outcome(false, es, q)
      ensures Outcome(false, es + more, q)
    {
      PrefixFacts(d, es, more);
    }

    /** Outcome said of the roster itself: it is refused exactly if its connected remote devices
        cannot be told apart or keyed; otherwise exactly these are prepared. */
    ghost predicate Remotes(ps: seq<Participant>, ok: bool, q: Prepared) reads this {
      && (ok <==>
            && GoodRoster(d, ps)
            && (|callKey| < RAW_KEY_BYTES ==> forall id :: Names(d, ps, id) ==> id in x.byDevice))
      && (ok ==> RemotesListed(d, ps, q))
    }

    lemma RemotesPrepared(ps: seq<Participant>, ok: bool, q: Prepared)
      requires Outcome(ok, Entries(d, ps), q)
      ensures Remotes(ps, ok, q)
    {
      hide Compatible, GoodRoster, Names, RemotesListed, Inverse, Listed, Reuses;
      NamesExactly(d, ps);
      GoodRosterExactly(d, ps);
      if ok {
        ListedRemotes(d, ps, q);
      }
    }

    /** Takes in a whole roster. */
    method PrepareRoster(participants: seq<Participant>) returns (ok: bool, q: Prepared)
      requires AllDerived(d, x.byDevice)
      ensures Outcome(ok, Entries(d, participants), q)
      ensures Remotes(participants, ok, q)
      ensures fresh(q.created) && AllKeyed(q.created, callKey)
    {
      hide Remotes;
      hide Outcome, PreparedFor, AllDerived, AllKeyed, Compatible;
      NothingPrepared();
      q := NOTHING_PREPARED;
      for i := 0 to |participants|
        invariant Outcome(true, Entries(d, participants[..i]), q)
        invariant fresh(q.created) && AllKeyed(q.created, callKey)
      {
        ghost var sofar := Entries(d, participants[..i]);
        SplitParticipants(d, participants, i);
        if participants[i].state == "connected" {
          ghost var more := DeviceEntries(d, participants[i].jid, participants[i].devices);
          ok, q := AddDevices(q, sofar, participants[i].jid, participants[i].devices);
          if !ok {
            RefusedStaysRefused(sofar + more, Entries(d, participants[i + 1..]), q);
            RemotesPrepared(participants, ok, q);
            return;
          }
        }
      }
      assert participants[..|participants|] == participants;
      ok := true;
      RemotesPrepared(participants, ok, q);
    }

    /** The newest pending epoch a roster transaction may install. */
    method NewestPending(tx: nat) returns (newest: Option<nat>, consumed: set<nat>)
      ensures newest == Newest(pendingEpochs, tx)
      ensures consumed == set t | t in pendingEpochs && t <= tx
    {
      var rest := pendingEpochs.Keys;
      newest, consumed := None, {};
      while rest != {}
        invariant rest <= pendingEpochs.Keys
        invariant consumed == set t | t in pendingEpochs.Keys - rest && t <= tx
        invariant newest.None? ==> consumed == {}
        invariant newest.Some? ==> newest.value in consumed && forall t :: t in consumed ==> t <= newest.value
        decreases rest
      {
        var t :| t in rest;
        rest := rest - {t};
        if t <= tx {
          consumed := consumed + {t};
          if newest.None? || t > newest.value {
            newest := Some(t);
          }
        }
      }
      ghost var n := Newest(pendingEpochs, tx);
      assert n.Some? ==> n.value in consumed;
    }

    /** What a preparation that succeeded promises. */
    ghost predicate Planned(u: Update, plan: Plan) reads this {
      var es := Entries(d, u.participants);
      && plan.tx == u.tx
      && Inverse(d, plan.x) && plan.x.byDevice.Keys == NextActive(d, View(), u)
      && PidListed(es, plan.x, plan.metadata)
      && Reuses(x.byDevice, plan.x.byDevice, plan.created)
      && plan.consumed == (set t | t in pendingEpochs && t <= u.tx)
      && PlannedEpoch(u, plan)
    }

    ghost predicate PlannedEpoch(u: Update, plan: Plan) reads this {
      var s := Select(View(), u.tx);
      && (plan.replace <==> s.Replace?)
      && (plan.keys.Some? <==> hasEpoch || plan.replace)
      && (plan.keys.Some? ==>
            && plan.epoch == (if plan.replace then s.epoch else installedEpoch)
            && KeysOf(d.selfId, plan.epoch.key, plan.x.byDevice.Values, plan.keys.value))
    }

    /** Prepares a whole update without touching any object that existed before: on refusal the
        receivers created on the way are zeroed. */
    method Prepare(u: Update) returns (ok: bool, plan: Plan)
      requires Inverse(d, x)
      ensures ok <==> Admissible(d, View(), u) && Select(View(), u.tx) != Conflict
      ensures ok ==> Planned(u, plan) && Reuses(x.byDevice, plan.x.byDevice, plan.created)
      ensures fresh(plan.created)
      ensures if ok then AllKeyed(plan.created, callKey) else forall r :: r in plan.created ==> r.crypto == ZERO_CRYPTO
    {
      hide Inverse, Compatible;
      var p;
      ok, p := PrepareRosterOrFallback(u);
      var newest, consumed := NewestPending(u.tx);
      plan := Plan(u.tx, p.x, p.metadata, p.created, consumed, installedEpoch, None, false);
      if ok && newest.Some? {
        var e := Epoch(newest.value, pendingEpochs[newest.value]);
        if !hasEpoch || e.tx > installedEpoch.tx {
          plan := plan.(epoch := e, replace := true);
        } else if e.tx == installedEpoch.tx && e.key != installedEpoch.key {
          ok := false;
        }
      }
      if !ok {
        ZeroAll(p.created);
      } else if hasEpoch || plan.replace {
        var keys := PrepareEpoch(d.selfId, plan.epoch.key, plan.x.byDevice.Values);
        plan := plan.(keys := Some(keys));
      }
    }

    /** The roster's receivers, or the fallback peer's while no connected remote device has a PID. */
    method PrepareRosterOrFallback(u: Update) returns (ok: bool, p: Prepared)
      requires Inverse(d, x)
      ensures ok <==> Admissible(d, View(), u)
      ensures ok ==> Inverse(d, p.x) && p.x.byDevice.Keys == NextActive(d, View(), u)
      ensures ok ==> PidListed(Entries(d, u.participants), p.x, p.metadata)
      ensures ok ==> Reuses(x.byDevice, p.x.byDevice, p.created)
      ensures fresh(p.created) && AllKeyed(p.created, callKey)
    {
      hide InverseUnder, StreamInverse, Compatible;
      ok, p := PrepareRoster(u.participants);
      if ok {
        ListedPids(d, x.byDevice, Entries(d, u.participants), p);
        if p.metadata == [] {
          assert Entries(d, u.participants) == [];
          if fallbackId in x.byDevice {
            p := p.(x := Single(x.byDevice[fallbackId]));
            SingleInverse(d, x.byDevice[fallbackId]);
          }
        }
      }
    }

    /** Makes a prepared update the registry's state. */
    method Commit(u: Update, plan: Plan)
      requires Valid() && Planned(u, plan) && !Stale(View(), u)
      requires AllKeyed(plan.created, callKey)
      modifies this`x, this`transactionId, this`rosterGeneration, this`hasGroupUpdate
      modifies this`installedEpoch, this`hasEpoch, this`pendingEpochs
      modifies x.byDevice.Values`crypto, x.byDevice.Values`profile, plan.created`crypto, plan.created`profile
      modifies sendPipes`state, srtcpSenders`keys
      ensures Valid() && View() == GroupLedger.Commit(d, old(View()), u)
      ensures Continues(old(x.byDevice), old(RocsOf(x.byDevice)), x.byDevice) && x == plan.x
      ensures Carries(Entries(d, u.participants), x) && rosterGeneration == old(rosterGeneration) + 1
      ensures Entries(d, u.participants) == [] ==>
                KeepsProfiles(old(ProfilesOf(x.byDevice)), x.byDevice)
    {
      hide Valid, View, AllKeyed, GroupLedger.Commit, Crypto.Rocs, Carries, Entries, Stale, KeepsProfiles, ProfilesOf;
      hide Inverse, PidListed, PlannedEpoch, NextActive;
      ghost var before := x.byDevice;
      assert forall id :: id in before && id in plan.x.byDevice ==> plan.x.byDevice[id] == before[id];
      hide Planned, Reuses;
      CommitPlan(u, plan);
    }

    method CommitPlan(u: Update, plan: Plan)
      requires Valid() && Planned(u, plan) && !Stale(View(), u)
      requires AllKeyed(plan.created, callKey)
      modifies this`x, this`transactionId, this`rosterGeneration, this`hasGroupUpdate
      modifies this`installedEpoch, this`hasEpoch, this`pendingEpochs
      modifies x.byDevice.Values`crypto, x.byDevice.Values`profile, plan.created`crypto, plan.created`profile
      modifies sendPipes`state, srtcpSenders`keys
      ensures Valid() && View() == GroupLedger.Commit(d, old(View()), u) && x == plan.x
      ensures forall id :: id in old(x.byDevice) && id !in plan.x.byDevice ==> old(x.byDevice)[id].crypto == ZERO_CRYPTO
      ensures forall r :: r in plan.x.byDevice.Values ==> r.crypto.Rocs() == old(r.crypto.Rocs())
      ensures Carries(Entries(d, u.participants), x) && rosterGeneration == old(rosterGeneration) + 1
      ensures Entries(d, u.participants) == [] ==>
                KeepsProfiles(old(ProfilesOf(x.byDevice)), x.byDevice)
    {
      ghost var now, next := CommitFacts(u, plan);
      hide *;
      var dropped := set id |
        id in x.byDevice && (id !in plan.x.byDevice || plan.x.byDevice[id] != x.byDevice[id]) :: x.byDevice[id];
      Apply(plan, dropped, plan.x.byDevice.Values, Entries(d, u.participants), now, next);
    }

    /** Commits a plan that drops one set of receivers and runs on with another. */
    method Apply(plan: Plan, dropped: set<Receiver>, kept: set<Receiver>, ghost es: seq<Entry>,
                 ghost now: Option<Bytes>, ghost next: Ledger)
      requires next == Settled(plan) && Ordered(next) && Inverse(d, plan.x)
      requires now == if next.installed.Some? then Some(next.installed.value.key) else None
      requires PidListed(es, plan.x, plan.metadata)
      requires kept == plan.x.byDevice.Values && dropped !! kept
      requires Describes(plan.metadata, kept) && |plan.metadata| == |es|
      requires KeysReady(d.selfId, callKey, now, kept, plan.keys)
      modifies this`x, this`transactionId, this`rosterGeneration, this`hasGroupUpdate
      modifies this`installedEpoch, this`hasEpoch, this`pendingEpochs
      modifies dropped`crypto, kept`crypto, kept`profile, sendPipes`state, srtcpSenders`keys
      ensures Valid() && View() == next && x == plan.x
      ensures forall r :: r in dropped ==> r.crypto == ZERO_CRYPTO
      ensures forall r :: r in kept ==> r.crypto.Rocs() == old(r.crypto.Rocs())
      ensures Carries(es, x) && rosterGeneration == old(rosterGeneration) + 1
      ensures es == [] ==> forall r :: r in kept ==> r.profile == old(r.profile)
    {
      hide *;
      SwitchKeys(dropped, kept, plan.metadata, plan.keys, sendPipes, srtcpSenders, d.selfId, callKey, now);
      WrittenIsCarried(es, plan.x, plan.metadata);
      Settle(plan, now, next);
    }

    /** Everything a commit relies on, spelled out. */
    lemma CommitFacts(u: Update, plan: Plan) returns (now: Option<Bytes>, next: Ledger)
      requires Valid() && Planned(u, plan) && !Stale(View(), u) && AllKeyed(plan.created, callKey)
      ensures next == Settled(plan) == GroupLedger.Commit(d, View(), u) && Ordered(next) && Inverse(d, plan.x)
      ensures now == if next.installed.Some? then Some(next.installed.value.key) else None
      ensures PidListed(Entries(d, u.participants), plan.x, plan.metadata)
      ensures KeysReady(d.selfId, callKey, now, plan.x.byDevice.Values, plan.keys)
      ensures plan.x.byDevice.Values <= x.byDevice.Values + plan.created
      ensures var dropped := set id |
                id in x.byDevice && (id !in plan.x.byDevice || plan.x.byDevice[id] != x.byDevice[id]) :: x.byDevice[id];
              && dropped <= x.byDevice.Values && dropped !! plan.x.byDevice.Values
              && (forall id :: id in x.byDevice && id !in plan.x.byDevice ==> x.byDevice[id] in dropped)
      ensures forall id :: id in x.byDevice && id in plan.x.byDevice ==> plan.x.byDevice[id] == x.byDevice[id]
      ensures Describes(plan.metadata, plan.x.byDevice.Values)
      ensures |plan.metadata| == |Entries(d, u.participants)|
    {
      DropFacts(x.byDevice, plan.x.byDevice, plan.created);
      MetadataFacts(Entries(d, u.participants), plan.x, plan.metadata);
      CommittedView(u, plan);
      hide Inverse, PidListed, Reuses, KeysOf, KeysAgree, AllKeyed, Ordered, PidsCarried, Select, NextActive;
      next := Settled(plan);
      now := if next.installed.Some? then Some(next.installed.value.key) else None;
      AllKeyedUnion(Receivers(), plan.created, plan.x.byDevice.Values, callKey, d.selfId, EpochKey(),
                    sendPipes, srtcpSenders);
    }

    /** The registry's own side of a commit: the maps, the counters and the epochs. */
    method Settle(plan: Plan, ghost now: Option<Bytes>, ghost next: Ledger)
      requires next == Settled(plan) && Ordered(next) && Inverse(d, plan.x) && PidsCarried(plan.x)
      requires now == if next.installed.Some? then Some(next.installed.value.key) else None
      requires KeysAgree(d.selfId, callKey, now, plan.x.byDevice.Values, sendPipes, srtcpSenders)
      modifies this`x, this`transactionId, this`rosterGeneration, this`hasGroupUpdate
      modifies this`installedEpoch, this`hasEpoch, this`pendingEpochs
      ensures Valid() && View() == next && x == plan.x && rosterGeneration == old(rosterGeneration) + 1
    {
      hide Inverse, KeysAgree, PidsCarried, Ordered;
      x := plan.x;
      transactionId, rosterGeneration, hasGroupUpdate := plan.tx, rosterGeneration + 1, true;
      if plan.replace {
        installedEpoch, hasEpoch := plan.epoch, true;
      }
      pendingEpochs := pendingEpochs - plan.consumed;
    }

    ghost function Settled(plan: Plan): Ledger reads this {
      Ledger(true, plan.tx, plan.x.byDevice.Keys, fallbackId, |callKey| >= RAW_KEY_BYTES,
             if plan.replace then Some(plan.epoch) else if hasEpoch then Some(installedEpoch) else None,
             pendingEpochs - plan.consumed)
    }

    /** The ledger of the committed fields. */
    lemma CommittedView(u: Update, plan: Plan)
      requires Planned(u, plan) && Ordered(View()) && !Stale(View(), u)
      ensures Settled(plan) == GroupLedger.Commit(d, View(), u) && Ordered(Settled(plan))
      ensures plan.keys.Some? <==> Settled(plan).installed.Some?
      ensures plan.keys.Some? ==> plan.epoch == Settled(plan).installed.value
    {
      hide Inverse, PidListed, Reuses, KeysOf;
      assert pendingEpochs - plan.consumed == Above(pendingEpochs, u.tx);
      CommitKeepsOrder(d, View(), u);
    }

    /** Whether an update with this callback takes effect. */
    ghost predicate Acts(u: Update, cb: Option<Callback>) reads this {
      && cb.Some? && cb.value.commits > 0
      && (hasGroupUpdate ==> transactionId < u.tx)
      && GoodRoster(d, u.participants)
      && (|callKey| < RAW_KEY_BYTES ==> forall id :: Names(d, u.participants, id) ==> id in x.byDevice)
    }

    /** Applies a roster update under a callback that decides whether and how often to commit.  The
        update takes effect at most once and wholly, or not at all: then neither the registry nor
        any receiver or sender has changed. */
    method ApplyGroupUpdateTransaction(u: Update, cb: Option<Callback>) returns (failed: bool)
      requires Valid()
      modifies this`x, this`transactionId, this`rosterGeneration, this`hasGroupUpdate
      modifies this`installedEpoch, this`hasEpoch, this`pendingEpochs
      modifies x.byDevice.Values`crypto, x.byDevice.Values`profile, sendPipes`state, srtcpSenders`keys
      ensures Valid()
      ensures failed <==> cb.None? || (old(!Stale(View(), u)) && !old(Acts(u, cb)))
      ensures old(Acts(u, cb)) ==>
                && View() == GroupLedger.Commit(d, old(View()), u)
                && Continues(old(x.byDevice), old(RocsOf(x.byDevice)), x.byDevice)
      ensures old(Acts(u, cb)) ==>
                && ActiveUnder(d, u.participants, old(x.byDevice.Keys), old(fallbackId), x.byDevice.Keys)
                && CarriesRoster(d, u.participants, x)
                && rosterGeneration == old(rosterGeneration) + 1
      ensures old(Acts(u, cb)) && !NamesAny(d, u.participants) ==>
                KeepsProfiles(old(ProfilesOf(x.byDevice)), x.byDevice)
      ensures fresh(x.byDevice.Values - old(x.byDevice.Values))
      ensures !old(Acts(u, cb)) ==>
                unchanged(this) && unchanged(old(x.byDevice.Values)) && unchanged(sendPipes) && unchanged(srtcpSenders)
    {
      hide Inverse, PidsCarried, Ordered, KeysAgree, Admissible, Select;
      hide GroupLedger.Commit, Planned, Continues, AllKeyed, GoodRoster, Names, ActiveUnder, NamesAny;
      hide Carries, CarriesRoster, Entries, RocsOf, KeepsProfiles, ProfilesOf;
      if cb.None? {
        return true;
      }
      if hasGroupUpdate && u.tx <= transactionId {
        return false;
      }
      AcceptsExactly(d, View(), u);
      CommitActivates(d, View(), u);
      NamesExactly(d, u.participants);
      var ok, plan := Prepare(u);
      if !ok || cb.value.commits == 0 {
        ZeroAll(plan.created);
        return true;
      }
      // The first commit call takes effect; the others find the update committed and return, and
      // an error the callback reports after a commit is only logged.
      OnlyCreated(plan);
      Commit(u, plan);
      RosterCarried(d, u.participants, x);
      failed := false;
    }

    lemma OnlyCreated(plan: Plan)
      requires Reuses(x.byDevice, plan.x.byDevice, plan.created)
      ensures plan.x.byDevice.Values - x.byDevice.Values <= plan.created
    {
    }

    /** Installs or buffers one shared raw key epoch. */
    method ApplyGroupRawEpoch(e: Epoch) returns (failed: bool)
      requires Valid()
      modifies this`pendingEpochs, this`installedEpoch, this`hasEpoch
      modifies x.byDevice.Values`crypto, sendPipes`state, srtcpSenders`keys
      ensures Valid() && View() == ApplyEpoch(old(View()), e)
      ensures failed <==> OfferEpoch(old(View()), e).Refused?
      ensures failed ==>
                unchanged(this) && unchanged(x.byDevice.Values) && unchanged(sendPipes) && unchanged(srtcpSenders)
      ensures RocsOf(x.byDevice) == old(RocsOf(x.byDevice))
    {
      MalformedIsRefused(View(), e);
      hide *;
      failed := true;
      if |e.key| == RAW_KEY_BYTES {
        failed := ApplyWellFormedEpoch(e);
      }
    }

    method ApplyWellFormedEpoch(e: Epoch) returns (failed: bool)
      requires Valid() && |e.key| == RAW_KEY_BYTES
      modifies this`pendingEpochs, this`installedEpoch, this`hasEpoch
      modifies x.byDevice.Values`crypto, sendPipes`state, srtcpSenders`keys
      ensures Valid() && View() == ApplyEpoch(old(View()), e)
      ensures failed <==> OfferEpoch(old(View()), e).Refused?
      ensures failed ==>
                unchanged(this) && unchanged(x.byDevice.Values) && unchanged(sendPipes) && unchanged(srtcpSenders)
      ensures RocsOf(x.byDevice) == old(RocsOf(x.byDevice))
    {
      EpochKeepsOrder(View(), e);
      hide *;
      if hasGroupUpdate && e.tx <= transactionId {
        failed := ApplyDueEpoch(e);
      } else {
        failed := BufferEpoch(e);
      }
    }

    lemma MalformedIsRefused(l: Ledger, e: Epoch)
      ensures |e.key| != RAW_KEY_BYTES ==> OfferEpoch(l, e).Refused? && ApplyEpoch(l, e) == l
    {
    }

    /** An epoch ahead of the roster waits for it. */
    method BufferEpoch(e: Epoch) returns (failed: bool)
      requires Valid() && Ordered(ApplyEpoch(View(), e))
      requires |e.key| == RAW_KEY_BYTES && (!hasGroupUpdate || transactionId < e.tx)
      modifies this`pendingEpochs
      ensures Valid() && View() == ApplyEpoch(old(View()), e)
      ensures failed <==> OfferEpoch(old(View()), e).Refused?
      ensures failed ==> unchanged(this)
      ensures RocsOf(x.byDevice) == old(RocsOf(x.byDevice))
    {
      hide Inverse, PidsCarried, Ordered, KeysAgree;
      if e.tx in pendingEpochs {
        return pendingEpochs[e.tx] != e.key;
      }
      pendingEpochs := pendingEpochs[e.tx := e.key];
      failed := false;
    }

    /** An epoch the roster already covers is installed unless the one in force is as new. */
    method ApplyDueEpoch(e: Epoch) returns (failed: bool)
      requires Valid() && Ordered(ApplyEpoch(View(), e))
      requires |e.key| == RAW_KEY_BYTES && hasGroupUpdate && e.tx <= transactionId
      modifies this`installedEpoch, this`hasEpoch
      modifies x.byDevice.Values`crypto, sendPipes`state, srtcpSenders`keys
      ensures Valid() && View() == ApplyEpoch(old(View()), e)
      ensures failed <==> OfferEpoch(old(View()), e).Refused?
      ensures failed ==>
                unchanged(this) && unchanged(x.byDevice.Values) && unchanged(sendPipes) && unchanged(srtcpSenders)
      ensures RocsOf(x.byDevice) == old(RocsOf(x.byDevice))
    {
      hide Inverse, PidsCarried, Ordered, KeysAgree, RocsOf;
      if hasEpoch && e.tx <= installedEpoch.tx {
        return e.tx == installedEpoch.tx && installedEpoch.key != e.key;
      }
      Install(e);
      failed := false;
    }

    /** Puts one epoch in force everywhere. */
    method Install(e: Epoch)
      requires Inverse(d, x) && PidsCarried(x) && Ordered(View().(installed := Some(e)))
      modifies this`installedEpoch, this`hasEpoch
      modifies x.byDevice.Values`crypto, sendPipes`state, srtcpSenders`keys
      ensures Valid() && View() == old(View()).(installed := Some(e))
      ensures RocsOf(x.byDevice) == old(RocsOf(x.byDevice))
    {
      hide Inverse, Ordered, KeysAgree, RocsOf, PidsCarried;
      RunOn(e.key);
      installedEpoch, hasEpoch := e, true;
    }

    /** Installs the keys of one raw epoch in every active receiver and attached sender. */
    method RunOn(raw: Bytes)
      requires PidsCarried(x)
      modifies x.byDevice.Values`crypto, sendPipes`state, srtcpSenders`keys
      ensures KeysAgree(d.selfId, callKey, Some(raw), x.byDevice.Values, sendPipes, srtcpSenders)
      ensures PidsCarried(x) && RocsOf(x.byDevice) == old(RocsOf(x.byDevice))
    {
      hide KeysOf, KeysAgree, Crypto.Rocs;
      assert forall id :: id in x.byDevice ==> x.byDevice[id] in x.byDevice.Values;
      var keys := PrepareEpoch(d.selfId, raw, x.byDevice.Values);
      InstallEverywhere(x.byDevice.Values, keys, sendPipes, srtcpSenders, d.selfId, callKey, raw);
    }

    /** A send pipeline attached late runs on the installed epoch at once. */
    method AttachSendPipeline(p: MediaPipeline?) returns (failed: bool)
      requires Valid()
      modifies this`sendPipes, p
      ensures Valid() && View() == old(View())
      ensures failed <==> p == null
      ensures sendPipes == old(sendPipes) + if failed then [] else [p]
    {
      hide Inverse, PidsCarried, Ordered;
      if p == null {
        return true;
      }
      if hasEpoch {
        p.state := InstallSend(p.state, FromRaw(installedEpoch.key, d.selfId));
      }
      sendPipes := sendPipes + [p];
      failed := false;
    }

    method AttachSrtcpSender(s: SrtcpSender?) returns (failed: bool)
      requires Valid()
      modifies this`srtcpSenders, s
      ensures Valid() && View() == old(View())
      ensures failed <==> s == null
      ensures srtcpSenders == old(srtcpSenders) + if failed then [] else [s]
    {
      hide Inverse, PidsCarried, Ordered;
      if s == null {
        return true;
      }
      if hasEpoch {
        s.keys := FromRawRtcp(installedEpoch.key, d.selfId);
      }
      srtcpSenders := srtcpSenders + [s];
      failed := false;
    }

    /** Moves the direct peer to the answering device; once a roster is in force, only an active
        device can become the fallback. */
    method RekeyFallback(peer: Option<(string, string)>) returns (failed: bool)
      requires Valid()
      modifies this`x, this`fallbackId, this`rosterGeneration
      ensures Valid()
      ensures peer.Some? ==> View() == ApplyFallback(old(View()), d.format(peer.value.1))
      ensures peer.None? ==> failed && unchanged(this)
      ensures fallbackId == if failed || peer.None? then old(fallbackId) else d.format(peer.value.1)
      ensures rosterGeneration == old(rosterGeneration) + if failed || hasGroupUpdate then 0 else 1
      ensures failed || hasGroupUpdate ==> x == old(x)
      ensures peer.Some? && !failed && !hasGroupUpdate ==>
                && (forall r :: r in x.byDevice.Values ==>
                      r.profile == Profile(peer.value.0, peer.value.1, 0, false))
                && fresh(x.byDevice.Values) && x.byPid == map[] && x.byDevice.Keys == {d.format(peer.value.1)}
      ensures failed <==> peer.None? || if hasGroupUpdate then d.format(peer.value.1) !in old(x.byDevice)
                                        else |callKey| < RAW_KEY_BYTES
    {
      hide Inverse, PidsCarried, KeysAgree;
      if peer.None? {
        return true;
      }
      var id := d.format(peer.value.1);
      if hasGroupUpdate {
        if id !in x.byDevice {
          return true;
        }
        fallbackId := id;
        return false;
      }
      if |callKey| < RAW_KEY_BYTES {
        return true;
      }
      ReplaceDirectPeer(id, Profile(peer.value.0, peer.value.1, 0, false));
      failed := false;
    }

    /** A registry without a roster starts over with one receiver. */
    method ReplaceDirectPeer(id: string, profile: Profile)
      requires Ordered(View()) && !hasGroupUpdate && |callKey| >= RAW_KEY_BYTES
      modifies this`x, this`fallbackId, this`rosterGeneration
      ensures Valid() && View() == old(View()).(active := {id}, fallback := id)
      ensures rosterGeneration == old(rosterGeneration) + 1
      ensures forall r :: r in x.byDevice.Values ==> r.profile == profile
      ensures fresh(x.byDevice.Values) && x.byPid == map[] && x.byDevice.Keys == {id}
    {
      hide InverseUnder, StreamInverse;
      var r := new Receiver(d, callKey, id, profile);
      SingleInverse(d, r);
      x := Single(r);
      fallbackId, rosterGeneration := id, rosterGeneration + 1;
      assert x.byDevice.Keys == {id};
      assert forall o :: o in x.byDevice.Values ==> o == r;
    }

    /** Zeroes every key the registry reaches and forgets them. */
    method Clear()
      requires Valid()
      modifies this, x.byDevice.Values`crypto, sendPipes`state, srtcpSenders`keys
      ensures Valid() && View() == Cleared(old(View()))
      ensures forall r :: r in old(x.byDevice.Values) ==> r.crypto == ZERO_CRYPTO
      ensures forall p :: p in old(sendPipes) ==> p.state == ZERO_PIPE
      ensures forall s :: s in old(srtcpSenders) ==> s.keys == Zero
      ensures x == NO_INDEXES && callKey == [] && sendPipes == [] && srtcpSenders == []
    {
      hide *;
      EraseAll(x.byDevice.Values, sendPipes, srtcpSenders);
      Forget();
    }

    method Forget()
      modifies this
      ensures Valid() && View() == Cleared(old(View()))
      ensures x == NO_INDEXES && callKey == [] && sendPipes == [] && srtcpSenders == []
    {
      NoReceivers(d);
      hide Inverse, PidsCarried, KeysAgree;
      callKey, pendingEpochs := [], map[];
      installedEpoch, hasEpoch := Epoch(0, []), false;
      x := NO_INDEXES;
      sendPipes, srtcpSenders := [], [];
    }
  }

  method EraseAll(rs: set<Receiver>, pipes: seq<MediaPipeline>, senders: seq<SrtcpSender>)
    modifies rs`crypto, pipes`state, senders`keys
    ensures forall r :: r in rs ==> r.crypto == ZERO_CRYPTO
    ensures forall p :: p in pipes ==> p.state == ZERO_PIPE
    ensures forall s :: s in senders ==> s.keys == Zero
  {
    ZeroAll(rs);
    InstallSenders(pipes, senders, Zero, Zero);
    ResetReceive(pipes);
  }

  lemma NoReceivers(d: Derivation)
    ensures Inverse(d, NO_INDEXES) && PidsCarried(NO_INDEXES)
    ensures NO_INDEXES.byDevice.Keys == {} && KeysAgree(d.selfId, [], None, NO_INDEXES.byDevice.Values, [], [])
  {
  }

  method ResetReceive(pipes: seq<MediaPipeline>)
    modifies pipes`state
    ensures forall p :: p in pipes ==> p.state == old(p.state).(recv := Zero, roc := 0)
  {
    for i := 0 to |pipes|
      invariant forall p :: p in pipes ==> p.state == old(p.state) || p.state == old(p.state).(recv := Zero, roc := 0)
      invariant forall k :: 0 <= k < i ==> pipes[k].state == old(pipes[k].state).(recv := Zero, roc := 0)
    {
      pipes[i].state := InstallRecv(pipes[i].state, Zero);
    }
  }

  lemma AllKeyedUnion(rs: set<Receiver>, created: set<Receiver>, next: set<Receiver>, callKey: Bytes, selfId: string,
                      epoch: Option<Bytes>, pipes: seq<MediaPipeline>, senders: seq<SrtcpSender>)
    requires KeysAgree(selfId, callKey, epoch, rs, pipes, senders) && AllKeyed(created, callKey) && next <= rs + created
    ensures epoch.None? ==> AllKeyed(next, callKey)
  {
  }

  /** The keys a commit installs: those of the epoch in force, or none while the receivers run on
      the call key. */
  ghost predicate KeysReady(
    selfId: string, callKey: Bytes, now: Option<Bytes>, rs: set<Receiver>, keys: Option<PreparedEpoch>)
    reads rs
  {
    match now
    case None => keys.None? && AllKeyed(rs, callKey)
    case Some(raw) => keys.Some? && KeysOf(selfId, raw, rs, keys.value)
  }

  /** The metadata speaks about each of some receivers at most once. */
  ghost predicate Describes(metadata: seq<Metadata>, rs: set<Receiver>) {
    && (forall i :: 0 <= i < |metadata| ==> metadata[i].receiver in rs)
    && (forall i, j :: 0 <= i < j < |metadata| ==> metadata[i].receiver != metadata[j].receiver)
  }

  /** The heap side of a commit: zeroes the dropped receivers, writes the metadata of the others
      and installs the prepared keys. */
  method SwitchKeys(dropped: set<Receiver>, kept: set<Receiver>, metadata: seq<Metadata>, keys: Option<PreparedEpoch>,
                    pipes: seq<MediaPipeline>, senders: seq<SrtcpSender>,
                    ghost selfId: string, ghost callKey: Bytes, ghost now: Option<Bytes>)
    requires dropped !! kept && Describes(metadata, kept) && KeysReady(selfId, callKey, now, kept, keys)
    modifies dropped`crypto, kept`crypto, kept`profile, pipes`state, senders`keys
    ensures KeysAgree(selfId, callKey, now, kept, pipes, senders)
    ensures forall r :: r in dropped ==> r.crypto == ZERO_CRYPTO
    ensures forall r :: r in kept ==> r.crypto.Rocs() == old(r.crypto.Rocs())
    ensures forall i :: 0 <= i < |metadata| ==> metadata[i].receiver.profile == metadata[i].profile
    ensures metadata == [] ==> forall r :: r in kept ==> r.profile == old(r.profile)
  {
    ZeroAll(dropped);
    WriteMetadata(metadata, kept);
    assert KeysReady(selfId, callKey, now, kept, keys);
    if keys.Some? {
      InstallEverywhere(kept, keys.value, pipes, senders, selfId, callKey, now.value);
    }
  }

  /** Installs one epoch's keys in all receivers and senders, keeping every receive tracker. */
  method InstallEverywhere(rs: set<Receiver>, keys: PreparedEpoch, pipes: seq<MediaPipeline>, senders: seq<SrtcpSender>,
                           ghost selfId: string, ghost callKey: Bytes, ghost raw: Bytes)
    requires KeysOf(selfId, raw, rs, keys)
    modifies rs`crypto, pipes`state, senders`keys
    ensures KeysAgree(selfId, callKey, Some(raw), rs, pipes, senders)
    ensures forall r :: r in rs ==> r.crypto.Rocs() == old(r.crypto.Rocs())
  {
    InstallSenders(pipes, senders, keys.send, keys.sendRtcp);
    InstallReceivers(rs, keys);
  }

  /** Receivers dropped by a switch from dev to next are none of next's. */
  lemma DropFacts(dev: Index<string>, next: Index<string>, created: set<Receiver>)
    requires forall id :: id in dev ==> dev[id].participantId == id
    requires forall id :: id in next ==> next[id].participantId == id
    requires Reuses(dev, next, created)
    ensures (set id | id in dev && (id !in next || next[id] != dev[id]) :: dev[id]) ==
            (set id | id in dev && id !in next :: dev[id])
    ensures next.Values <= dev.Values + created
    ensures forall id :: id in dev && id !in next ==> dev[id] !in next.Values
    ensures forall id :: id in dev && id in next ==> next[id] == dev[id]
  {
  }

  lemma MetadataFacts(es: seq<Entry>, x: Indexes, metadata: seq<Metadata>)
    requires PidListed(es, x, metadata)
    ensures Describes(metadata, x.byDevice.Values) && |metadata| == |es|
  {
  }

  /** Exactly the connected remote devices of a roster are prepared, each with its participant's JID
      and its own JID and PID. */
  ghost predicate RemotesListed(d: Derivation, ps: seq<Participant>, q: Prepared) {
    && (forall id :: id in q.x.byDevice <==> Names(d, ps, id))
    && (forall pid :: pid in q.x.byPid <==> NamesPid(d, ps, pid))
    && EachListed(d, ps, q)
  }

  ghost predicate EachListed(d: Derivation, ps: seq<Participant>, q: Prepared) {
    forall i, j :: 0 <= i < |ps| && 0 <= j < |ps[i].devices| && Remote(d, ps, i, j) ==> RemoteListed(d, ps, i, j, q)
  }

  ghost predicate RemoteListed(d: Derivation, ps: seq<Participant>, i: nat, j: nat, q: Prepared)
    requires i < |ps| && j < |ps[i].devices|
  {
    var p, device := ps[i], ps[i].devices[j];
    var id := d.format(device.jid);
    id in q.x.byDevice && Metadata(q.x.byDevice[id], Profile(p.jid, device.jid, device.pid, true)) in q.metadata
  }

  lemma ListedRemote(d: Derivation, ps: seq<Participant>, i: nat, j: nat, q: Prepared)
    requires Listed(Entries(d, ps), q.x, q.metadata)
    requires i < |ps| && j < |ps[i].devices| && Remote(d, ps, i, j)
    ensures RemoteListed(d, ps, i, j, q)
  {
    var e := EntryOf(d, ps[i], ps[i].devices[j]);
    EntriesExactly(d, ps, e);
    assert Listing(d, ps, e);
    hide Entries, Listing, Ids, Pids;
    var es := Entries(d, ps);
    var k :| 0 <= k < |es| && es[k] == e;
    assert q.metadata[k] == Metadata(q.x.byDevice[e.id], ProfileOf(e));
  }

  lemma ListedIds(d: Derivation, ps: seq<Participant>, q: Prepared)
    requires Listed(Entries(d, ps), q.x, q.metadata)
    ensures forall id :: id in q.x.byDevice <==> Names(d, ps, id)
    ensures forall pid :: pid in q.x.byPid <==> NamesPid(d, ps, pid)
  {
    NamesExactly(d, ps);
    hide Names, NamesPid, Entries;
    forall pid ensures pid in q.x.byPid <==> NamesPid(d, ps, pid) {
      NamesPidExactly(d, ps, pid);
    }
  }

  lemma ListedRemotes(d: Derivation, ps: seq<Participant>, q: Prepared)
    requires Listed(Entries(d, ps), q.x, q.metadata)
    ensures RemotesListed(d, ps, q)
  {
    ListedIds(d, ps, q);
    EachIsListed(d, ps, q);
    hide Names, NamesPid, Entries, Listed, EachListed;
  }

  lemma EachIsListed(d: Derivation, ps: seq<Participant>, q: Prepared)
    requires Listed(Entries(d, ps), q.x, q.metadata)
    ensures EachListed(d, ps, q)
  {
    hide Entries, Listed, RemoteListed, Remote;
    forall i, j | 0 <= i < |ps| && 0 <= j < |ps[i].devices| && Remote(d, ps, i, j)
      ensures RemoteListed(d, ps, i, j, q)
    {
      ListedRemote(d, ps, i, j, q);
    }
  }

  /** The keys of one epoch for every stream that will run on it. */
  datatype PreparedEpoch = PreparedEpoch(
    send: Keys, sendRtcp: Keys, receive: map<Receiver, Keys>, receiveRtcp: map<Receiver, Keys>)

  method PrepareEpoch(selfId: string, raw: Bytes, receivers: set<Receiver>) returns (p: PreparedEpoch)
    ensures KeysOf(selfId, raw, receivers, p)
  {
    p := PreparedEpoch(FromRaw(raw, selfId), FromRawRtcp(raw, selfId), map[], map[]);
    var rest := receivers;
    while rest != {}
      invariant rest <= receivers
      invariant p.send == FromRaw(raw, selfId) && p.sendRtcp == FromRawRtcp(raw, selfId)
      invariant p.receive.Keys == p.receiveRtcp.Keys == receivers - rest
      invariant forall r :: r in receivers - rest ==> p.receive[r] == FromRaw(raw, r.participantId)
      invariant forall r :: r in receivers - rest ==> p.receiveRtcp[r] == FromRawRtcp(raw, r.participantId)
      decreases rest
    {
      var r :| r in rest;
      rest := rest - {r};
      p := p.(receive := p.receive[r := FromRaw(raw, r.participantId)],
              receiveRtcp := p.receiveRtcp[r := FromRawRtcp(raw, r.participantId)]);
    }
  }

  method ZeroAll(receivers: set<Receiver>)
    modifies receivers`crypto
    ensures forall r :: r in receivers ==> r.crypto == ZERO_CRYPTO
  {
    var rest := receivers;
    while rest != {}
      invariant rest <= receivers
      invariant forall r :: r in receivers - rest ==> r.crypto == ZERO_CRYPTO
      decreases rest
    {
      var r :| r in rest;
      rest := rest - {r};
      r.crypto := r.crypto.Erased();
    }
  }

  method InstallReceivers(receivers: set<Receiver>, p: PreparedEpoch)
    requires p.receive.Keys == p.receiveRtcp.Keys == receivers
    modifies receivers`crypto
    ensures forall r :: r in receivers ==> r.crypto == old(r.crypto).Rekeyed(p.receive[r], p.receiveRtcp[r])
  {
    var rest := receivers;
    while rest != {}
      invariant rest <= receivers
      invariant forall r :: r in receivers ==>
                  r.crypto == if r in rest then old(r.crypto) else old(r.crypto).Rekeyed(p.receive[r], p.receiveRtcp[r])
      decreases rest
    {
      var r :| r in rest;
      rest := rest - {r};
      r.crypto := r.crypto.Rekeyed(p.receive[r], p.receiveRtcp[r]);
    }
  }

  method InstallSenders(pipes: seq<MediaPipeline>, senders: seq<SrtcpSender>, keys: Keys, rtcp: Keys)
    modifies pipes`state, senders`keys
    ensures forall q :: q in pipes ==>
              q.state.send == keys && q.state.recv == old(q.state.recv) && q.state.roc == old(q.state.roc)
    ensures forall s :: s in senders ==> s.keys == rtcp
  {
    for i := 0 to |pipes|
      invariant forall q :: q in pipes ==> q.state.recv == old(q.state.recv) && q.state.roc == old(q.state.roc)
      invariant forall k :: 0 <= k < i ==> pipes[k].state.send == keys
    {
      pipes[i].state := InstallSend(pipes[i].state, keys);
    }
    for i := 0 to |senders|
      invariant forall q :: q in pipes ==>
                  q.state.send == keys && q.state.recv == old(q.state.recv) && q.state.roc == old(q.state.roc)
      invariant forall k :: 0 <= k < i ==> senders[k].keys == rtcp
    {
      senders[i].keys := rtcp;
    }
  }

  method WriteMetadata(ms: seq<Metadata>, ghost receivers: set<Receiver>)
    requires Describes(ms, receivers)
    modifies receivers`profile
    ensures forall i :: 0 <= i < |ms| ==> ms[i].receiver.profile == ms[i].profile
    ensures ms == [] ==> unchanged(receivers`profile)
  {
    for k := 0 to |ms|
      invariant forall i :: 0 <= i < k ==> ms[i].receiver.profile == ms[i].profile
      invariant ms == [] ==> unchanged(receivers`profile)
    {
      ms[k].receiver.profile := ms[k].profile;
    }
  }

  lemma {:induction false} DeviceEntriesAppend(d: Derivation, user: string, a: seq<Device>, b: seq<Device>)
    ensures DeviceEntries(d, user, a + b) == DeviceEntries(d, user, a) + DeviceEntries(d, user, b)
  {
    if a == [] {
      assert a + b == b;
    } else {
      assert (a + b)[1..] == a[1..] + b;
      DeviceEntriesAppend(d, user, a[1..], b);
    }
  }

  lemma SplitDevices(d: Derivation, es: seq<Entry>, user: string, devices: seq<Device>, j: nat)
    requires j < |devices|
    ensures es + DeviceEntries(d, user, devices[..j + 1]) ==
            es + DeviceEntries(d, user, devices[..j]) + DeviceEntries(d, user, [devices[j]])
    ensures es + DeviceEntries(d, user, devices) ==
            es + DeviceEntries(d, user, devices[..j]) + DeviceEntries(d, user, [devices[j]]) +
            DeviceEntries(d, user, devices[j + 1..])
  {
    assert devices[..j + 1] == devices[..j] + [devices[j]];
    assert devices == devices[..j + 1] + devices[j + 1..];
    DeviceEntriesAppend(d, user, devices[..j], [devices[j]]);
    DeviceEntriesAppend(d, user, devices[..j + 1], devices[j + 1..]);
  }

  lemma {:induction false} EntriesAppend(d: Derivation, a: seq<Participant>, b: seq<Participant>)
    ensures Entries(d, a + b) == Entries(d, a) + Entries(d, b)
  {
    if a == [] {
      assert a + b == b;
    } else {
      assert (a + b)[1..] == a[1..] + b;
      EntriesAppend(d, a[1..], b);
    }
  }

  lemma SplitParticipants(d: Derivation, ps: seq<Participant>, i: nat)
    requires i < |ps|
    ensures var more := if ps[i].state == "connected" then DeviceEntries(d, ps[i].jid, ps[i].devices) else [];
            && Entries(d, ps[..i + 1]) == Entries(d, ps[..i]) + more
            && (more == [] ==> Entries(d, ps[..i + 1]) == Entries(d, ps[..i]))
            && Entries(d, ps) == Entries(d, ps[..i]) + more + Entries(d, ps[i + 1..])
  {
    assert ps[..i + 1] == ps[..i] + [ps[i]];
    assert ps == ps[..i + 1] + ps[i + 1..];
    EntriesAppend(d, ps[..i], [ps[i]]);
    EntriesAppend(d, ps[..i + 1], ps[i + 1..]);
    assert Entries(d, [ps[i]][1..]) == [];
  }

  /** Compatibility and device ids are inherited by prefixes. */
  lemma {:induction false} PrefixFacts(d: Derivation, es: seq<Entry>, more: seq<Entry>)
    ensures Compatible(d, es + more) ==> Compatible(d, es)
    ensures Ids(es) <= Ids(es + more)
    decreases |more|
  {
    var all := es + more;
    assert forall i :: 0 <= i < |es| ==> all[i] == es[i];
    if more == [] {
      assert all == es;
    } else {
      PrefixFacts(d, es, more[..|more| - 1]);
      assert all[..|all| - 1] == es + more[..|more| - 1];
    }
  }

  /** Enters a receiver into the preparation unless its PID or one of its SSRCs is taken. */
  method Admit(d: Derivation, known: Index<string>, p: Prepared, ghost es: seq<Entry>, e: Entry, r: Receiver)
    returns (ok: bool, q: Prepared)
    requires PreparedFor(d, known, es, p) && e.id !in p.x.byDevice && r.Derived(d, e.id)
    requires if e.id in known then r == known[e.id] else r in p.created
    ensures ok <==> Compatible(d, es + [e])
    ensures ok ==> PreparedFor(d, known, es + [e], q)
    ensures q.created == p.created
  {
    q := p;
    var x';
    ok, x' := Enter(d, p.x, p.metadata, es, e, r);
    if ok {
      q := p.(x := x', metadata := p.metadata + [Metadata(r, ProfileOf(e))]);
      ReusesGrows(known, p.x.byDevice, p.created, r);
    }
  }

  lemma ReusesGrows(known: Index<string>, dev: Index<string>, created: set<Receiver>, r: Receiver)
    requires Reuses(known, dev, created)
    requires if r.participantId in known then r == known[r.participantId] else r in created
    ensures Reuses(known, dev[r.participantId := r], created)
  {
  }

  /** Enters a receiver into the maps unless its PID or one of its SSRCs is taken. */
  method Enter(d: Derivation, x: Indexes, ghost metadata: seq<Metadata>, ghost es: seq<Entry>, e: Entry, r: Receiver)
    returns (ok: bool, x': Indexes)
    requires Inverse(d, x) && Listed(es, x, metadata) && Compatible(d, es)
    requires r.Derived(d, e.id) && e.id !in x.byDevice
    ensures ok <==> Compatible(d, es + [e])
    ensures ok ==> Inverse(d, x') && Listed(es + [e], x', metadata + [Metadata(r, ProfileOf(e))])
    ensures ok ==> x'.byDevice == x.byDevice[e.id := r]
  {
    CompatibleSnoc(d, es, e);
    StreamsFree(d, x.byDevice, x.bySrtcp, es, r);
    x' := x;
    if e.pid in x.byPid {
      var i := FindPid(es, e.pid);
      return false, x;
    }
    if r.ssrc in x.bySsrc {
      AttributeTaken(x.byDevice, x.bySsrc, x.bySrtcp, SsrcOf, AUDIO_STREAM, r);
      return false, x;
    }
    if r.videoSsrc in x.byVideo {
      AttributeTaken(x.byDevice, x.byVideo, x.bySrtcp, VideoOf, VIDEO_STREAM, r);
      return false, x;
    }
    if r.appDataSsrc in x.byAppData {
      AttributeTaken(x.byDevice, x.byAppData, x.bySrtcp, AppDataOf, APP_DATA_STREAM, r);
      return false, x;
    }
    var srtcp;
    ok, srtcp := AddStreams(x.bySrtcp, r);
    if ok {
      x' := Indexes(x.byDevice[e.id := r], x.byPid[e.pid := r], x.bySsrc[r.ssrc := r],
                    x.byVideo[r.videoSsrc := r], x.byAppData[r.appDataSsrc := r], srtcp);
      assert x' == Extended(x, e, r);
      ExtendedInverse(d, x, e, r);
      ListedGrows(es, x, metadata, e, r);
    }
  }

  /** m with the first n streams of r entered. */
  function WithStreams(m: Index<nat>, r: Receiver, n: nat): Index<nat>
    requires n <= |r.streams|
  {
    if n == 0 then m else WithStreams(m, r, n - 1)[r.streams[n - 1] := r]
  }

  lemma {:induction false} WithStreamsHas(m: Index<nat>, r: Receiver, n: nat, s: nat)
    requires n <= |r.streams|
    ensures s in WithStreams(m, r, n) <==> s in m || s in r.streams[..n]
    ensures s in WithStreams(m, r, n) ==> WithStreams(m, r, n)[s] == if s in r.streams[..n] then r else m[s]
  {
    if n > 0 {
      WithStreamsHas(m, r, n - 1, s);
      assert r.streams[..n] == r.streams[..n - 1] + [r.streams[n - 1]];
    }
  }

  /** Enters a receiver's nine streams, refusing the first one already taken. */
  method AddStreams(taken: Index<nat>, r: Receiver) returns (ok: bool, srtcp: Index<nat>)
    requires |r.streams| == 9
    ensures ok <==> (forall a, b :: 0 <= a < b < 9 ==> r.streams[a] != r.streams[b]) &&
                    (forall a :: 0 <= a < 9 ==> r.streams[a] !in taken)
    ensures ok ==> srtcp == WithStreams(taken, r, 9)
  {
    srtcp := taken;
    for a := 0 to 9
      invariant forall b, c :: 0 <= b < c < a ==> r.streams[b] != r.streams[c]
      invariant forall b :: 0 <= b < a ==> r.streams[b] !in taken
      invariant srtcp == WithStreams(taken, r, a)
    {
      WithStreamsHas(taken, r, a, r.streams[a]);
      if r.streams[a] in srtcp {
        if r.streams[a] !in taken {
          var b :| 0 <= b < a && r.streams[..a][b] == r.streams[a];
        }
        return false, srtcp;
      }
      srtcp := srtcp[r.streams[a] := r];
    }
    ok := true;
  }

  function Extended(x: Indexes, e: Entry, r: Receiver): Indexes
    requires |r.streams| == 9
  {
    Indexes(x.byDevice[e.id := r], x.byPid[e.pid := r], x.bySsrc[r.ssrc := r],
            x.byVideo[r.videoSsrc := r], x.byAppData[r.appDataSsrc := r], WithStreams(x.bySrtcp, r, 9))
  }

  lemma CompatibleSnoc(d: Derivation, es: seq<Entry>, e: Entry)
    ensures Compatible(d, es + [e]) <==>
            && Compatible(d, es) && (forall i :: 0 <= i < |es| ==> es[i].id != e.id && es[i].pid != e.pid)
            && DistinctStreams(d, e.id) && (forall i :: 0 <= i < |es| ==> DisjointStreams(d, es[i].id, e.id))
  {
    var all := es + [e];
    assert forall i :: 0 <= i < |es| ==> all[i] == es[i];
    assert all[|es|] == e;
    if Compatible(d, all) {
      forall i | 0 <= i < |es| ensures es[i].id != e.id && es[i].pid != e.pid && DisjointStreams(d, es[i].id, e.id) {
        assert all[i].id != all[|es|].id;
      }
    }
  }

  /** The streams of r are free exactly when they are disjoint from every prepared device's. */
  lemma StreamsFree(d: Derivation, dev: Index<string>, srtcp: Index<nat>, es: seq<Entry>, r: Receiver)
    requires AllDerived(d, dev) && StreamInverse(dev, srtcp) && dev.Keys == Ids(es) && r.Derived(d, r.participantId)
    ensures (forall a :: 0 <= a < 9 ==> r.streams[a] !in srtcp) <==>
            (forall i :: 0 <= i < |es| ==> DisjointStreams(d, es[i].id, r.participantId))
  {
    if a :| 0 <= a < 9 && r.streams[a] in srtcp {
      var o := srtcp[r.streams[a]];
      assert o.participantId in Ids(es);
      var i := FindId(es, o.participantId);
      var b :| 0 <= b < 9 && o.streams[b] == r.streams[a];
      assert d.streams(es[i].id)[b] == d.streams(r.participantId)[a];
      assert !DisjointStreams(d, es[i].id, r.participantId);
    } else {
      forall i | 0 <= i < |es| ensures DisjointStreams(d, es[i].id, r.participantId) {
        IdAt(es, i);
        var o := dev[es[i].id];
        forall a, b | 0 <= a < 9 && 0 <= b < 9 ensures d.streams(es[i].id)[a] != d.streams(r.participantId)[b] {
          assert o.streams[a] in srtcp;
        }
      }
    }
  }

  /** A taken audio, video or app-data SSRC is one of r's taken streams. */
  lemma AttributeTaken(dev: Index<string>, m: Index<nat>, srtcp: Index<nat>, f: Receiver -> nat, k: nat, r: Receiver)
    requires InverseUnder(dev, m, f) && StreamInverse(dev, srtcp) && k < 9 == |r.streams|
    requires forall id :: id in dev ==> f(dev[id]) == dev[id].streams[k]
    requires f(r) in m && f(r) == r.streams[k]
    ensures r.streams[k] in srtcp
  {
    assert m[f(r)].participantId in dev;
  }

  lemma InverseUnderGrows(dev: Index<string>, m: Index<nat>, f: Receiver -> nat, r: Receiver)
    requires InverseUnder(dev, m, f) && r.participantId !in dev && f(r) !in m
    ensures InverseUnder(dev[r.participantId := r], m[f(r) := r], f)
  {
  }

  lemma StreamInverseGrows(dev: Index<string>, m: Index<nat>, r: Receiver)
    requires StreamInverse(dev, m) && r.participantId !in dev && |r.streams| == 9
    requires forall a :: 0 <= a < 9 ==> r.streams[a] !in m
    ensures StreamInverse(dev[r.participantId := r], WithStreams(m, r, 9))
  {
    var m' := WithStreams(m, r, 9);
    assert r.streams[..9] == r.streams;
    forall s ensures s in m' <==> s in m || s in r.streams
      ensures s in m' ==> m'[s] == if s in r.streams then r else m[s]
    {
      WithStreamsHas(m, r, 9, s);
    }
  }

  lemma DerivedGrows(d: Derivation, dev: Index<string>, byPid: Index<nat>, pid: nat, r: Receiver)
    requires AllDerived(d, dev) && PidsKnown(dev, byPid) && r.Derived(d, r.participantId) && r.participantId !in dev
    ensures AllDerived(d, dev[r.participantId := r])
    ensures PidsKnown(dev[r.participantId := r], byPid[pid := r])
  {
  }

  lemma ExtendedInverse(d: Derivation, x: Indexes, e: Entry, r: Receiver)
    requires Inverse(d, x) && r.Derived(d, e.id) && e.id !in x.byDevice && e.pid !in x.byPid
    requires forall a :: 0 <= a < 9 ==> r.streams[a] !in x.bySrtcp
    requires r.ssrc !in x.bySsrc && r.videoSsrc !in x.byVideo && r.appDataSsrc !in x.byAppData
    ensures Inverse(d, Extended(x, e, r))
  {
    InverseUnderGrows(x.byDevice, x.bySsrc, SsrcOf, r);
    InverseUnderGrows(x.byDevice, x.byVideo, VideoOf, r);
    InverseUnderGrows(x.byDevice, x.byAppData, AppDataOf, r);
    StreamInverseGrows(x.byDevice, x.bySrtcp, r);
    DerivedGrows(d, x.byDevice, x.byPid, e.pid, r);
  }

  lemma SingleInverse(d: Derivation, r: Receiver)
    requires r.Derived(d, r.participantId)
    ensures Inverse(d, Single(r))
  {
    var x := Single(r);
    ExtendedInverse(d, NO_INDEXES, Entry(r.participantId, "", "", 0), r);
  }

  lemma ListedGrows(es: seq<Entry>, x: Indexes, metadata: seq<Metadata>, e: Entry, r: Receiver)
    requires Listed(es, x, metadata) && e.id !in x.byDevice && e.pid !in x.byPid && |r.streams| == 9
    ensures Listed(es + [e], Extended(x, e, r), metadata + [Metadata(r, ProfileOf(e))])
  {
    IdsSnoc(es, e);
    var all, y := es + [e], Extended(x, e, r);
    assert forall i :: 0 <= i < |es| ==> all[i] == es[i];
    assert all[|es|] == e;
  }
}
