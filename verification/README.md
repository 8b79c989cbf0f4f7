# Models of the call stack

This project models the VoIP call stack under `lib/` and proves what its state machines and stream
algorithms keep, over every input and every interleaving. Objects whose methods change them are
classes whose methods are specified by pure functions; protocols between goroutines are state
machines with one step per critical section; floating-point samples are reals.

| file | models |
|---|---|
| `GroupLedger.dfy` | roster transactions and raw key epochs as values: which update wins, which epoch is installed, which wait |
| `GroupReceive.dfy` | the receive registry itself: receiver objects, six index maps, send pipelines, preparation and commit |
| `GroupReceiveRuns.dfy` | whole runs of a registry from its creation |
| `GroupControl.dfy`, `GroupAlone.dfy` | the engine's critical sections around the registry, interleaved with calls ending and media starting; what each operation comes to when it runs alone |
| `VideoNegotiation.dfy`, `VideoRuns.dfy`, `VideoPictures.dfy` | the engine's video flags, the sender's gate, what reaches the wire, camera controls parked until the accept; whole runs of complete operations; when a picture comes out |
| `VideoInterleaving.dfy`, `VideoAgreement.dfy`, `VideoGuards.dfy`, `VideoRefinement.dfy` | the critical sections of those operations interleaved, and exactly when flags and sender agree; sections run alone come to the complete operation |
| `AudioSource.dfy`, `AudioFraming.dfy`, `WavSource.dfy` | streaming resampler, framer, Opus pre-skip, WAV block reading |
| `AudioPlayout.dfy`, `AudioDelivery.dfy` | the RTP-timestamped playout buffer over a sink whose writes fail, and what it plays when none fails |
| `AudioMixer.dfy`, `AudioMixing.dfy` | participant queues, mixing, sink framing; what is heard of several speakers |
| `ReactionWire.dfy`, `ReactionFormat.dfy`, `ReactionDelivery.dfy` | the reaction payload in the Protocol Buffers wire format, its byte formats, ten-fold sending, deduplicating receipt |
| `ReplayFilter.dfy`, `RelayFanout.dfy` | the replay ring with its bitset; readers, backlog, receiver and close of the relay fanout |
| `Notifications.dfy` | the re-entrant notification queue, the group state callback, raised hands, the accept callback |
| `CallTargets.dfy`, `CallRegistry.dfy` | whom a group call rings; cancel handles and session phases |
| `AppStateKeys.dfy` | the windowed, bounded table of app-state key requests |
| `Common.dfy` | shared vocabulary: options, bytes, concatenation, splitting, division |

Where the code and its comments or obvious expectations part ways, the code is what is modelled, and
the exact condition under which the expectation holds is proved:

- `GroupLedger.ConvergesExactly`: with two keys for one transaction the outcome depends on which
  arrived first exactly if that transaction is decisive, that is, no newer epoch is covered by a
  roster update.
- `GroupControl.PublicationExactly`: a registry published while an update or epoch is in flight can
  stay behind its call, exactly if one that began without it is neither dropped by the call nor
  covered by the registry.
- `VideoGuards.FlagsAgreeExactly`: the sender object is switched outside the engine lock, so
  overlapping operations can leave it at odds with the flags; they do not exactly if every operation
  passes a guard on the threads under way (`VideoGuards.StepExactly`). Operations one after the
  other always pass (`VideoGuards.AloneIsGuarded`).
- `VideoRuns.VideoFirstExactly`: the comment on deferral speaks of any video-state stanza racing
  ahead of the accept; only the toggle and the orientation are held back, and the lemma says which
  other events put a video stanza before the accept.
- `WavSource.LosslessExactly`: trimming each 8192-byte block on its own loses samples for some
  channel counts; the lemma says for exactly which files it cannot.
- `AppStateKeys.SpacedExactly`: a failed send erases the record of a later request that shares a key
  with it and is within its day; requests stay spaced exactly if no failure does that.
- `ReplayFilter.MergeExactly`: a copy far behind the newest packet passes twice, unless it lies a
  multiple of 64 whole turns of the ring back; packets pass once exactly if all copies behind do.
- `ReactionDelivery.WrappedReactionIsLost`: the transaction counter of a sender wraps to zero, an
  id the decoder rejects.

## Model

| member | source | states |
|---|---|---|
| `GroupLedger.Convergence` | lib/call_group_media_receive.go:210-262 | two runs over the same events in which no two keys dispute a decisive transaction, in any order and with any duplication, agree on the roster transaction, the installed epoch and the pending epochs; and on the active devices when the greatest good update is one and has a connected remote PID |
| `GroupLedger.RunSummarizes` | lib/call_group_media_receive.go:362-455 | after any run, disputed keys or not, the ledger is an order-free summary of its events: the greatest good update, an epoch of the greatest good transaction not above it, all good transactions above it pending |
| `GroupLedger.SummaryIsUnique` | lib/call_group_media_receive.go:362-409 | without disputes at decisive transactions that summary determines roster transaction, installed epoch and pending epochs |
| `GroupLedger.RunShowsRoster` | lib/call_group_media_receive.go:273-360 | after any run with an accepted update, the active ids are exactly those of the connected participants' devices with a PID, this client's own aside, of an update with the greatest transaction; if it has none, exactly the fallback peer, provided it was active when the update came |
| `GroupLedger.EntriesExactly` | lib/call_group_media_receive.go:286-300 | the entries of a roster are those of its connected participants' devices with a PID that are not this client, each under its formatted id with the participant's JID and its own JID and PID |
| `GroupLedger.GoodRosterExactly` | lib/call_group_media_receive.go:300-346 | a roster is compatible exactly if any two of those devices differ in id, PID and all nine SSRCs, and each has nine distinct ones |
| `GroupLedger.CommitActivates` | lib/call_group_media_receive.go:349-360 | a commit makes exactly those devices active, or else the fallback peer if it was |
| `GroupLedger.AcceptsExactly` | lib/call_group_media_receive.go:210-409 | an update takes effect exactly if it is newer than the roster in force, its devices can be told apart, and without the call key all of them are active already |
| `GroupLedger.ConvergesExactly` | lib/call_group_media_receive.go:570-613 | all orders and duplications of some events agree exactly when no two good epochs with different keys share a transaction that is above the greatest good update or that of the greatest good epoch not above it |
| `GroupLedger.DisputeDiverges` | lib/call_group_media_receive.go:577-602 | at a decisive transaction the key that arrives first wins, so two orders of a dispute end apart |
| `GroupLedger.OrderedNeverConflicts` | lib/call_group_media_receive.go:381-397 | while installed epoch <= roster transaction < every pending epoch, preparation never meets its conflict branch |
| `GroupLedger.CommitKeepsOrder` | lib/call_group_media_receive.go:411-455 | a commit keeps that order |
| `GroupLedger.EpochKeepsOrder` | lib/call_group_media_receive.go:570-613 | so does an epoch, installed, buffered or refused |
| `GroupReceive.Registry.constructor` | lib/call_group_media_receive.go:121-167 | a new registry is coherent, with one receiver for the peer |
| `GroupReceive.Registry.FindOrCreate` | lib/call_group_media_receive.go:305-314 | a known device gets its existing receiver object, another a fresh one keyed by the call key, or none once the call key is gone |
| `GroupReceive.Registry.AddDevice` | lib/call_group_media_receive.go:300-346 | a device enters the preparation exactly when ids, PIDs and all nine SSRCs stay distinct and it can be keyed |
| `GroupReceive.Enter` | lib/call_group_media_receive.go:315-342 | a receiver enters all six maps exactly when its PID, its three media SSRCs and its nine streams are free, and the maps stay inverse indexes |
| `GroupReceive.AddStreams` | lib/call_group_media_receive.go:331-337 | nine streams are entered exactly when they are distinct and free |
| `GroupReceive.Registry.PrepareRoster` | lib/call_group_media_receive.go:286-348 | a roster is refused exactly if its connected remote devices with a PID cannot be told apart or keyed; otherwise exactly these are prepared, each with its participant's JID and its own JID and PID, in maps that are exactly the inverse indexes of its receivers |
| `GroupReceive.Registry.PrepareRosterOrFallback` | lib/call_group_media_receive.go:349-360 | a roster without connected remote PIDs keeps the fallback receiver |
| `GroupReceive.Registry.NewestPending` | lib/call_group_media_receive.go:362-380 | finds the greatest pending transaction not above the roster's and all that are consumed with it |
| `GroupReceive.Registry.Prepare` | lib/call_group_media_receive.go:273-409 | preparation changes no existing object, succeeds exactly on admissible updates without an epoch conflict, and zeroes what it created when it refuses |
| `GroupReceive.Registry.Commit` | lib/call_group_media_receive.go:411-455 | a commit keeps the registry coherent and its keys agreeing, follows the ledger, keeps receiver objects and rollover trackers of devices present before and after, and zeroes the keys of dropped receivers |
| `GroupReceive.Registry.ApplyGroupUpdateTransaction` | lib/call_group_media_receive.go:210-262 | an update takes effect wholly and once, however often the callback commits, or leaves registry, receivers and senders unchanged; when it takes effect, exactly the connected remote devices with a PID are active, the own one aside, each under its id and PID with its participant's JID and its own; without any, exactly the fallback peer, if it was active, with the profile it had |
| `GroupReceive.Registry.ApplyGroupRawEpoch` | lib/call_group_media_receive.go:570-613 | an epoch is installed everywhere, buffered, ignored or refused as the ledger says; a refusal changes nothing, an installation keeps every rollover tracker |
| `GroupReceive.Registry.BufferEpoch` | lib/call_group_media_receive.go:577-586 | an epoch ahead of the roster waits; another key for a waiting transaction is refused |
| `GroupReceive.Registry.ApplyDueEpoch` | lib/call_group_media_receive.go:590-613 | an epoch the roster covers is installed unless the one in force is as new |
| `GroupReceive.Registry.Install` | lib/call_group_media_receive.go:603-611 | the epoch recorded as installed is the one every receiver and sender runs on |
| `GroupReceive.PrepareEpoch` | lib/call_group_media_receive.go:626-660 | derives the keys of one raw epoch for the own side and exactly the given receivers |
| `GroupReceive.InstallEverywhere` | lib/call_group_media_receive.go:662-680 | afterwards all receivers and senders hold keys of that one epoch and no receive tracker is reset |
| `GroupReceive.Registry.AttachSendPipeline` | lib/call_group_media_receive.go:532-548 | a pipeline attached at any time runs on the installed epoch |
| `GroupReceive.Registry.AttachSrtcpSender` | lib/call_group_media_receive.go:550-566 | so does an SRTCP sender |
| `GroupReceive.Registry.RekeyFallback` | lib/call_group_media_receive.go:697-729 | without a roster a fresh receiver for the answering device replaces all maps; under one the maps stay and the device becomes the fallback only if it is active |
| `GroupReceive.Registry.Clear` | lib/call_group_media_receive.go:487-521 | every key the registry reaches is zeroed and the maps are emptied together |
| `GroupReceive.ZeroAll` | lib/call_group_media_receive.go:473-485 | zeroes every key of a set of receivers and resets their trackers |
| `GroupReceiveRuns.Create` | lib/call_group_media_receive.go:121-167 | creation fails exactly on an unparsable peer or a short call key |
| `GroupReceiveRuns.Drive` | lib/call_group_media_receive.go:210-262 | from creation through any updates under any callbacks, epochs, fallback rekeys, attachments and clearing, the registry stays coherent with agreeing keys, and shows the ledger of what was done |
| `GroupReceiveRuns.RunIsItsEvents` | lib/call_group_media_receive.go:210-262 | without fallback rekeys and clearing such a run is that of its committed updates and its epochs, to which convergence applies |
| `GroupControl.StepKeepsInv` | lib/call_engine_group_control.go:152-227 | every critical section, in every interleaving, keeps the invariant tying calls, registries and operations in flight |
| `GroupControl.StepAdvances` | lib/call_engine_group_control.go:265-323 | one step moves a surviving call's update and epoch forward only, never replaces an epoch by another key for its transaction, and brings no call into being unless it creates one |
| `GroupAlone.UpdateIsStored` | lib/call_engine_group_control.go:182-203 | an update back from its registry is in the live call afterwards unless one at least as new is, and no other call or registry is touched |
| `GroupAlone.EpochIsStored` | lib/call_engine_group_control.go:296-319 | the same of an epoch, of a group call |
| `GroupAlone.UpdateAlone` | lib/call_engine_group_control.go:152-227 | an update by itself that is new and that the call's registry lets through ends stored in the call and in force in the registry, with the roster's devices active unless the registry was ahead; every other update changes nothing |
| `GroupAlone.EpochAlone` | lib/call_engine_group_control.go:265-323 | an epoch by itself that is new, of a group call, and that the registry has no other key for ends stored in the call and kept or installed by the registry; every other epoch changes nothing |
| `GroupAlone.RegistryHolds` | lib/call_group_media_receive.go:570-613 | a well-formed epoch is refused exactly if the registry has another key pending or installed for its transaction |
| `GroupAlone.DirectStartAlone` | lib/call_engine_media.go:415-432 | media startup of a direct call by itself publishes a registry with the peer alone |
| `GroupAlone.GroupStartAlone` | lib/call_engine_media.go:352-408 | media startup of a group call by itself publishes a registry with the call's roster in force and its epoch installed or waiting, unless the roster's devices cannot be told apart |
| `GroupAlone.SnapshotIsChecked` | lib/call_engine_media.go:377-403 | what startup has built is published exactly if the call has no newer update and no newer epoch by then; otherwise startup goes on with it |
| `GroupAlone.StartCatchesUp` | lib/call_engine_media.go:352-403 | startup that goes on with what it has built publishes a registry with the call's newer roster in force and holding its epoch |
| `GroupAlone.FinishAlone` | lib/call_engine.go:1373-1400 | a call that ends is gone, and its registry keeps no receiver, key or epoch |
| `GroupAlone.CreateAlone` | lib/call_engine.go:205-212 | a call is created once, without update, epoch or registry |
| `GroupControl.SettledCallsAgree` | lib/call_engine_group_control.go:152-323 | in every reachable state a settled call's registry is not behind the call's update, and holds the call's very epoch pending or installed, or a newer one installed |
| `GroupControl.RunMovesForward` | lib/call_engine_group_control.go:152-323 | over any run, a call that is still the same one has moved forward only |
| `GroupControl.EndedStaysEnded` | lib/call_engine.go:1373-1396 | a finished call is not brought back by updates and epochs that were under way |
| `GroupControl.PublicationExactly` | lib/call_engine_group_control.go:152-323 | a registry just published never falls behind its call in any continuation exactly when it agrees with the call and every update or epoch in flight that began without it is one the call drops or it covers |
| `GroupControl.SettledNeverFallsBehind` | lib/call_engine_group_control.go:152-323 | from then on no interleaving makes it fall behind while the call lives |
| `GroupControl.HarmfulOvertakes` | lib/call_engine_group_control.go:182-203 | an update or epoch in flight that is neither dropped nor covered has a continuation that takes the call past the registry |
| `GroupControl.EarlyPublicationSettles` | lib/call_engine_media.go:415-432 | published before the first group update or epoch, a registry is settled exactly when nothing in flight would take the call past it |
| `GroupControl.EarlyRegistryNeverFallsBehind` | lib/call_engine_group_control.go:152-323 | for as long as the call lives, in every interleaving, such a registry stays the call's, is never behind its update, and holds its very epoch pending or installed, or a newer one installed |
| `GroupControl.CheckedPublicationSettles` | lib/call_engine_media.go:352-408 | what the startup loop's check publishes agrees with the call, so it is settled exactly when nothing in flight would take the call past it |
| `GroupControl.LatePublicationFallsBehind` | lib/call_engine_group_control.go:172-196 | published between the two sections of a first update, a registry can fall behind exactly when it has no update as new already |
| `GroupControl.CoversKept` | lib/call_group_media_receive.go:362-455 | updates and other epochs never make a registry lose an epoch it covers |
| `VideoNegotiation.VideoSender.SetEnabled` | lib/call_engine_media.go:1572-1579 | activation or gate opening makes a keyframe due |
| `VideoNegotiation.VideoSender.SetDisabled` | lib/call_engine_media.go:1581-1587 | closes the gate and makes a keyframe due |
| `VideoNegotiation.VideoSender.ProtectAccessUnit` | lib/call_engine_media.go:1504-1570 | what comes out protected, and when the due keyframe is settled |
| `VideoNegotiation.FirstFrameIsIdr` | lib/call_engine_media.go:1504-1593 | over any run, the first access unit protected after an activation, a gate opening, a stop or a keyframe request is an IDR, and none is protected while inactive or gated |
| `VideoPictures.SendAll` | lib/call_engine_media.go:1504-1570 | of a sequence of access units an active, ungated sender lets out everything from the first IDR with packets on, delta units included, and what precedes it only if no keyframe is owed; any other sender nothing |
| `VideoPictures.PlayUpgrade` | lib/call_engine.go:284-1360 | nothing comes out while an upgrade request waits; after an announced peer accept, or the peer's own video, local video is on, no gate is up, the sender is active and ungated, and everything from the first IDR with packets on comes out |
| `VideoPictures.PlayToggle` | lib/call_engine.go:376-409 | the same after a toggle switched on |
| `VideoPictures.PlayMediaUp` | lib/call_engine_media.go:745-752 | media coming up under an open camera lets everything from the first IDR with packets on come out, and under any other camera nothing |
| `VideoNegotiation.EngineCall.TransitionVideo` | lib/call_engine.go:274-357 | each local transition with its sends failing or not, and when it reports an error: a failed upgrade request leaves the camera off, a failed upgrade accept stays pending |
| `VideoNegotiation.EngineCall.RequestVideoUpgrade` | lib/call_engine.go:284-355 | the camera waits behind the gate; a failed request turns flags and sender off |
| `VideoNegotiation.EngineCall.AcceptVideoUpgrade` | lib/call_engine.go:325-345 | the peer's request is consumed only if both stanzas went out, the stop first when the camera is off |
| `VideoNegotiation.EngineCall.SetVideoEnabled` | lib/call_engine.go:359-410 | parks before the accept, else switches flags and sender together and takes a failed switch-on back; an error exactly on an ended call or a failed send |
| `VideoNegotiation.EngineCall.SwitchCamera` | lib/call_engine.go:376-409 | flags, sender and stanza of one toggle, undone if a switch-on cannot be sent |
| `VideoNegotiation.EngineCall.SetVideoOrientation` | lib/call_engine.go:412-448 | parks before the accept, else reaches the wire only with local video on; an error exactly when out of range, ended, off or not sent |
| `VideoNegotiation.EngineCall.SendAccept` | lib/call_engine.go:754-800 | the accept goes out once, then the parked toggle, then the parked orientation |
| `VideoNegotiation.EngineCall.ReleaseParked` | lib/call_engine.go:779-799 | both parked controls are taken and applied, the toggle first |
| `VideoNegotiation.EngineCall.OnVideoStanza` | lib/call_engine.go:1275-1350 | the peer's states: gate opened, upgrade taken with rollback if the announcement fails, upgrade declined (what each comes to is said by the lemmas of `VideoPictures`) |
| `VideoNegotiation.EngineCall.AnnounceCamera` | lib/call_engine.go:1305-1336 | the peer's accept turns the camera on, or off again if the announcement fails |
| `VideoPictures.PeerAcceptOpens` | lib/call_engine.go:1305-1350 | a peer's accept of any call turns local video on with no gate up and the sender active, ungated and owing a keyframe it owed, or being off or gated; unannounced, everything is off |
| `VideoPictures.PeerEnabledOpens` | lib/call_engine.go:1298-1304 | the peer's own video opens a camera that waits behind the gate and changes no other |
| `VideoPictures.ToggleOpens` | lib/call_engine.go:359-410 | a toggle switched on and sent opens the camera, any other leaves it off, a parked one changes nothing |
| `VideoPictures.RequestWaits` | lib/call_engine.go:284-355 | a sent upgrade request leaves camera, gate and sender waiting, an unsent one all off |
| `VideoPictures.StopDarkens` | lib/call_engine.go:274-357 | a stop turns flags and sender off and says so |
| `VideoPictures.RejectDarkens` | lib/call_engine.go:1309-1317 | a declined upgrade turns a waiting camera off and no other |
| `VideoPictures.UpgradeIsAnswered` | lib/call_engine.go:325-345 | the exact stanzas of an answered upgrade, and when the request stays pending |
| `VideoPictures.OrientationIsSent` | lib/call_engine.go:412-448 | an orientation from 0 to 3 is parked, or reaches the wire with local video on, and changes nothing else |
| `VideoNegotiation.EngineCall.PublishSender` | lib/call_engine_media.go:745-752 | a new sender takes over the call's flags with a keyframe due |
| `VideoNegotiation.VideoIsSafe` | lib/call_engine.go:274-448 | over any run with any sends failing: sender flags equal engine flags, a gate implies local video, frames leave only with video on and no gate, and on a direct incoming call no camera stanza precedes the accept |
| `VideoNegotiation.AcceptReleasesParked` | lib/call_engine.go:779-799 | what was parked goes out in order right behind the accept, the orientation only if the camera is then on |
| `VideoRuns.Drive` | lib/call_engine.go:274-448 | the engine's call follows any sequence of events as the run of its specification |
| `VideoRuns.VideoFirstExactly` | lib/call_engine.go:274-448 | over any run of a direct incoming call with any sends failing, a video stanza precedes the first accept exactly when some event before it was a successful upgrade request or stop, the first stanza of a pending upgrade accepted, or an announced peer accept |
| `VideoRuns.UpgradeRequestIsNotParked` | lib/call_engine.go:283-324 | an upgrade request sent before the accept always precedes it on the wire |
| `VideoInterleaving.AcceptLeadsAlways` | lib/call_engine.go:359-448 | in every interleaving of the sections of toggles, orientation changes, transitions, peer stanzas and accepts: on a direct incoming call the accept comes before any camera stanza, and once it is marked as sent nothing stays parked |
| `VideoInterleaving.StepKeeps` | lib/call_engine.go:754-800 | each section keeps a camera stanza under way behind the accept |
| `VideoAgreement.AgreementExactly` | lib/call_engine.go:274-410 | all schedules of the work under way, whichever sends fail, end with flags and live sender in agreement exactly when, for every set of failing sends, each thread's last write to the sender is what the flags come to |
| `VideoAgreement.WorkKeeps` | lib/call_engine.go:341-355 | each piece of work under way keeps that condition |
| `VideoAgreement.DriveAll` | lib/call_engine.go:341-410 | without the condition some schedule ends apart |
| `VideoGuards.StepExactly` | lib/call_engine.go:274-410 | each operation keeps the condition exactly when it passes its guard: switching on needs every other thread spent, switching off none that may still switch on, opening the gate none that takes flags back or switches otherwise |
| `VideoGuards.PublishExactly` | lib/call_engine_media.go:745-752 | a new sender made from the flags stays in agreement exactly when what threads take back of them changes nothing or is taken back from the sender of the moment |
| `VideoGuards.FlagsAgreeExactly` | lib/call_engine.go:274-448 | over any run, at every point, however the work under way is scheduled, it ends in agreement exactly when every operation has passed its guard |
| `VideoGuards.AloneIsGuarded` | lib/call_engine.go:274-448 | an operation begun with no work under way passes its guard |
| `VideoGuards.OverlapDesyncs` | lib/call_engine.go:376-409 | two toggles at once are safe exactly if both switch off |
| `VideoRefinement.OperationRefines` | lib/call_engine.go:274-448 | every operation whose sections run to their end alone gives the flags, the sender and the wire of the complete operation, with any sends failing |
| `VideoRefinement.RunRefines` | lib/call_engine.go:274-800 | so does any run of operations one after the other, from the start of a call |
| `AudioSource.DownmixResampler.Process` | lib/call_source.go:83-122 | a chunk's output is exactly what it adds to the interpolation of the whole stream; no index leaves the window |
| `AudioSource.ResampleAll` | lib/call_source.go:83-122 | for any split of a stream into chunks, output j lies at position j * rate / 16000 of the whole: on every line through the two samples around it, at a whole position on that sample, never outside their range, for exactly the positions strictly before the last sample; a straight stream stays on its line a + b * (j * rate) / 16000 |
| `AudioSource.InterpolateLiesAt` | lib/call_source.go:104-114 | one interpolated sample is on the line through its two neighbours, equals the left one at a whole position, and stays in their range |
| `AudioSource.StraightStays` | lib/call_source.go:83-122 | a stream on a line stays on it at any rate |
| `AudioSource.OutputCountExact` | lib/call_source.go:104-114 | exactly the positions strictly before the last sample yield output |
| `AudioSource.ResampledGrows` | lib/call_source.go:91-102 | a longer stream never changes output already given |
| `AudioFraming.FrameSource.ReadFrame` | lib/call_source.go:33-50 | a frame takes the next 960 samples, padded only at the end; the end is reported forever; a failure loses nothing |
| `AudioFraming.ReadAll` | lib/call_source.go:33-50 | reading to the end, over failures, gives the framed stream |
| `AudioFraming.FramedExact` | lib/call_source.go:46-49 | the frames are the stream plus fewer than 960 zeros, ceil(n/960) of them |
| `AudioFraming.OpusReader.More` | lib/call_source.go:310-343 | one decoder call yields the next samples behind the pre-skip, the end, or a failure |
| `AudioFraming.OpusScript` | lib/call_source.go:303-344 | an Opus file loses exactly its scaled pre-skip |
| `WavSource.WavMono` | lib/call_source.go:166-178 | channel groups are averaged, an incomplete one ignored, sums within 32 bits |
| `WavSource.PcmIsAveraged` | lib/call_source.go:166-178 | interleaved signed 16-bit samples, low byte first, are read as the mean over the channels, full scale being one |
| `WavSource.WavReader.More` | lib/call_source.go:139-161 | one block goes through downmix and resampler; a short one is the last |
| `WavSource.WavScript` | lib/call_source.go:126-163 | all decoder calls together give the interpolation of the bytes kept |
| `WavSource.PlayWav` | lib/call_source.go:126-163 | from bytes to frames; nothing is lost when the channel count divides 4096 |
| `WavSource.LosslessExactly` | lib/call_source.go:147-152 | block trimming is lossless for all files of a length exactly when the channel count divides 4096 or the file ends before completing the group its first block cuts |
| `AudioPlayout.AudioPlayoutBuffer.Push` | lib/call_audio_playout.go:27-71 | bounds, order and clock kept; what is written, buffered and dropped in each case; starting means two frames' worth was written |
| `AudioPlayout.AudioPlayoutBuffer.Flush` | lib/call_audio_playout.go:73-80 | writes the pending frame once started, and only then |
| `AudioPlayout.AudioPlayoutBuffer.Drain` | lib/call_audio_playout.go:82-101 | a prefix of everything held goes out in order, all of it unless a write fails, and the buffer is empty |
| `AudioPlayout.AudioPlayoutBuffer.Reset` | lib/call_audio_playout.go:103-108 | a jump or standstill of the clock drops what is buffered and starts anew |
| `AudioPlayout.AudioPlayoutBuffer.Buffer` | lib/call_audio_playout.go:50-55 | the prefill keeps the newest frames within two seconds, counted exactly |
| `AudioPlayout.AudioPlayoutBuffer.WritePrefill` | lib/call_audio_playout.go:60-67 | written and still buffered frames together are the prefill; a failed write loses none |
| `AudioPlayout.AudioPlayoutBuffer.Fill` | lib/call_audio_playout.go:50-70 | playout starts exactly when enough is buffered, a sink is attached and no write fails |
| `AudioPlayout.AudioPlayoutBuffer.WriteThrough` | lib/call_audio_playout.go:41-43 | once started a frame is written or, on failure, lost |
| `AudioPlayout.Align` | lib/call_audio_playout.go:110-124 | a frame is cut or zero-padded to the clock advance, to one frame's length at most |
| `AudioPlayout.PlayAll` | lib/call_audio_playout.go:27-101 | over any run with any writes failing: frames reach the sink in push order, none twice; the prefill counter is exact and at most 32000; started means nothing is prefilled |
| `AudioPlayout.RunPushes` | lib/call_audio_playout.go:27-71 | in any reachable buffer, from a push that starts the clock anew on: samples written, with any writes failing, plus samples buffered never exceed its advance modulo 2^32 |
| `AudioPlayout.PlayStream` | lib/call_audio_playout.go:27-71 | the same for a stream from its beginning |
| `AudioPlayout.DeltaIsTheAdvance` | lib/call_audio_playout.go:33-33 | a timestamp d ahead modulo 2^32 is an advance of d, for every d below 2^32 |
| `AudioPlayout.TrimIsLongest` | lib/call_audio_playout.go:52-55 | trimming keeps the longest run of newest frames of at most 32000 samples, or the newest frame alone |
| `AudioDelivery.PushNext` | lib/call_audio_playout.go:27-71 | one push more of a continuous stream of short frames: everything so far, each frame fitted to its gap, is written once 1920 samples are there and waits until then |
| `AudioDelivery.Deliver` | lib/call_audio_playout.go:27-71 | a whole such stream, with a sink attached and no failing write: nothing is lost, nothing out of order, all written from 1920 samples on |
| `AudioDelivery.DeliverSteady` | lib/call_audio_playout.go:27-101 | with 960-sample frames at t0 + 960 * i modulo 2^32, log and prefill are exactly all frames before the last, from the third push on all in the log; flushing and draining add the last |
| `AudioMixer.ParticipantAudioMixer.Add` | lib/call_group_audio_mixer.go:44-72 | append, keep the last 3840 samples, for allowed participants only |
| `AudioMixer.ParticipantAudioMixer.Retain` | lib/call_group_audio_mixer.go:74-92 | queues and allowed set become those of the roster |
| `AudioMixer.ParticipantAudioMixer.MixOne` | lib/call_group_audio_mixer.go:108-128 | one queue starts, stalls or gives its head |
| `AudioMixer.ParticipantAudioMixer.MixChunk` | lib/call_group_audio_mixer.go:94-140 | the chunk is the clamped sum of the heads of exactly the started, sufficiently filled queues, whatever the order of visiting |
| `AudioMixer.SumTakesAny` | lib/call_group_audio_mixer.go:100-128 | the sum over a set of queues does not depend on order |
| `AudioMixer.OnlyRosterIsHeard` | lib/call_group_audio_mixer.go:44-92 | in every reachable state queues are bounded and, once a roster was applied, only its members have one |
| `AudioMixer.HeardInOrder` | lib/call_group_audio_mixer.go:44-140 | over any run of the mixer, what is heard of a participant are disjoint stretches of what was accepted from it, in order; every sample offered is heard, waiting in its queue, lost to the bound, removed with its queue, or refused |
| `AudioMixer.HeardIsMixed` | lib/call_group_audio_mixer.go:108-128 | what a chunk adds to that is the head the mixer mixes in |
| `AudioMixer.HistoryIsTheMixers` | lib/call_group_audio_mixer.go:57-90 | the account's queue is the participant's queue in the mixer |
| `AudioMixing.ClampIsNearest` | lib/call_group_audio_mixer.go:130-138 | clamping gives the nearest sample between -1 and 1 |
| `AudioMixing.MixSpeakers` | lib/call_group_audio_mixer.go:44-140 | of any speakers who have each sent up to 3840 samples, chunk k is the clamped sum of samples 160k to 160k + 159 of exactly those with at least 1920 samples and that whole chunk; with none, there is no chunk |
| `AudioMixing.PrefillsAgain` | lib/call_group_audio_mixer.go:108-124 | over any run, a participant left out of a chunk is heard again only once 1920 of its samples wait |
| `AudioMixer.SinkFramer.Push` | lib/call_group_audio_mixer.go:142-155 | a frame comes out exactly when 960 samples wait, nothing lost |
| `AudioMixer.FrameChunks` | lib/call_group_audio_mixer.go:142-155 | frames plus remainder are the chunks, one frame per six 160-sample chunks |
| `ReactionWire.VarintRoundTrip` | lib/call_appdata.go:30-30 | every 64-bit value survives the Base 128 encoding, whatever follows |
| `ReactionWire.RoundTrip` | lib/call_appdata.go:28-39 | decoding inverts encoding exactly for nonzero ids and valid UTF-8, the empty emoji included, and rejects every other encoding whole |
| `ReactionWire.ParseConcatenation` | lib/call_appdata.go:41-71 | payloads concatenate: reactions of the first, then of the second; unknown fields are passed over |
| `ReactionWire.SkipGroupStable` | lib/call_appdata.go:64-68 | skipping an unknown field, nested groups included, does not depend on what follows |
| `ReactionWire.DecodeInfo` | lib/call_appdata.go:97-129 | the record loop computes the record grammar |
| `ReactionWire.DecodeMessage` | lib/call_appdata.go:73-95 | the message loop computes the message grammar |
| `ReactionWire.Decode` | lib/call_appdata.go:41-71 | the payload loop computes the payload grammar |
| `ReactionFormat.VarintExactly` | lib/call_appdata.go:107-107 | a varint is read exactly from one to ten bytes, all but the last with the high bit set, whose base-128 value is below 2^64 |
| `ReactionFormat.PutVarintIsShortest` | lib/call_appdata.go:30-30 | the varint written has that value in as few bytes as possible |
| `ReactionFormat.Utf8Exactly` | lib/call_appdata.go:112-114 | an emoji is valid exactly if it is the encoding of code points up to 0x10ffff other than surrogates, by section 3 of RFC 3629 |
| `ReactionFormat.Layout` | lib/call_appdata.go:28-39 | a reaction byte for byte: tags 0x0a, 0x0a, 0x08 and 0x12, each length before its content |
| `ReactionFormat.FieldIsSkipped` | lib/call_appdata.go:64-68 | an unknown field of any type, groups nested in groups included, is passed over to its last byte whatever follows; only groups nested too deep are refused |
| `ReactionDelivery.AppDataSender.SendReaction` | lib/call_appdata.go:198-230 | up to ten copies, stopping at the first failure, sequence numbers and timestamps advancing modulo 2^16 and 2^32 |
| `ReactionDelivery.SentIsCounted` | lib/call_appdata.go:198-230 | each packet is numbered one after the one before modulo 2^16 and stamped 50 after it modulo 2^32 |
| `ReactionDelivery.AppDataReceiver.Receive` | lib/call_appdata.go:136-151 | delivers the first reaction newer than the last one delivered, or nothing |
| `ReactionDelivery.DeliveriesIncrease` | lib/call_appdata.go:136-151 | whatever arrives, forged payloads included, delivered ids strictly increase |
| `ReactionDelivery.DeliversRecords` | lib/call_appdata.go:136-151 | over a network that loses, duplicates and reorders, delivered are exactly the arrivals that outrank all before them |
| `ReactionDelivery.Converse` | lib/call_appdata.go:136-230 | sender to receiver: only sent reactions, each at most once, in order; all of them, once, if order is kept and one copy of each survives |
| `ReactionDelivery.WrappedReactionIsLost` | lib/call_appdata.go:125-127 | id zero is never delivered |
| `ReplayFilter.ReplayRing.Duplicate` | lib/call_engine_relay_fanout.go:226-234 | bitset and slot array act as one table of the last number per slot |
| `ReplayFilter.RtpReplayFilter.Duplicate` | lib/call_engine_relay_fanout.go:220-235 | true exactly when the latest earlier packet of that SSRC in that slot had that number |
| `ReplayFilter.RepeatsExactly` | lib/call_engine_relay_fanout.go:220-235 | that is, the packet came before and no other one of its SSRC with the same remainder modulo 1024 has come since |
| `ReplayFilter.FilterAll` | lib/call_engine_media.go:996-1001 | a whole stream of packets is filtered by that rule |
| `ReplayFilter.SetBit` | lib/call_engine_relay_fanout.go:227-232 | setting one bit of a word leaves the others |
| `ReplayFilter.MergePassesOnce` | lib/call_engine_relay_fanout.go:200-235 | merging any number of in-order copies of one gap-free stream, amid other traffic, passes each packet exactly once in order, across sequence number wraps, as long as every copy behind the newest packet lies a multiple of 64 whole turns of the ring back |
| `ReplayFilter.TightPassesOnce` | lib/call_engine_relay_fanout.go:200-235 | in particular with a skew under 1024 |
| `ReplayFilter.MergeExactly` | lib/call_engine_relay_fanout.go:200-235 | and throughout a run exactly then |
| `ReplayFilter.BehindExactly` | lib/call_engine_relay_fanout.go:226-234 | a packet of the stream behind the newest one is a repeat exactly when it lies a multiple of 64 whole turns back |
| `ReplayFilter.LaggardPassesAgain` | lib/call_engine_relay_fanout.go:226-234 | any other copy passes a second time |
| `RelayFanout.FanoutIsSafe` | lib/call_engine_relay_fanout.go:44-91 | in every interleaving: packets received over a relay are a subsequence of its reads, backlog at most 256, live count exact, nothing closed twice, and the last failure leads to a close |
| `RelayFanout.StepFaithful` | lib/call_engine_relay_fanout.go:60-79 | each step keeps the merged packets of a relay in reading order and unaltered |
| `RelayFanout.StepCounts` | lib/call_engine_relay_fanout.go:83-91 | each step keeps the live count that of the readers that have not failed, never negative |
| `RelayFanout.StepWillClose` | lib/call_engine_relay_fanout.go:83-91 | with no live reader left, the close has begun or the last reader is about to begin it |
| `RelayFanout.ReportsOnlyWhenDrained` | lib/call_engine_relay_fanout.go:126-141 | closure is reported only when done and with an empty backlog |
| `RelayFanout.ClosureIsReported` | lib/call_engine_relay_fanout.go:126-141 | once done, and with no reader in its way, the receiver gets all that waits in order and then the report of the closure |
| `RelayFanout.MergedIsKept` | lib/call_engine_relay_fanout.go:126-141 | what is merged is received in that order and not lost |
| `RelayFanout.MergeAppends` | lib/call_engine_relay_fanout.go:60-79 | a merge puts exactly the packet its reader holds, the last one read, behind the backlog |
| `RelayFanout.EverythingArrives` | lib/call_engine_relay_fanout.go:44-91 | as long as no packet meets a full backlog or the close, received and waiting packets of a relay are everything read from it, in order, but for one in its reader's hands |
| `RelayFanout.LastFailureCloses` | lib/call_engine_relay_fanout.go:83-91 | from any reachable state with no live reader the close can complete: signalled, every relay closed |
| `RelayFanout.ClosesOnce` | lib/call_engine_relay_fanout.go:186-198 | however many closes are called for, the done channel and each relay are closed once |
| `Notifications.QueueIsOrderly` | lib/call_livecall.go:478-501 | in every interleaving, re-entrant enqueues included: one at a time, in order, exactly once, nothing queued when nobody drains |
| `Notifications.CallbackSeesEverything` | lib/call_livecall.go:143-202 | what the current registration has seen, then what waits for it, is its replay and every state accepted since, once each, in order |
| `Notifications.StoredIsNewest` | lib/call_livecall.go:171-184 | of numbered states, in any order, the stored one is the newest that came |
| `Notifications.OwedIncreases` | lib/call_livecall.go:143-202 | a registration is told of numbered states in strictly increasing order, the stored one last |
| `Notifications.UnnumberedGivesWay` | lib/call_livecall.go:175-180 | a state without a number gives way to any, and replaces no numbered one |
| `Notifications.HandsAreCurrent` | lib/call_livecall.go:503-527 | the stored roster lists the participants of the last one that came, and each hand flag is the latest word on that participant |
| `Notifications.AcceptReportedOnce` | lib/call_livecall.go:704-729 | the accept is reported once if callback and accept ever meet, in either order, else never |
| `CallTargets.RemoteGroupCallTargets` | lib/call_client.go:116-164 | rings, in roster order and by the first of JID, phone number and LID that has a server, exactly those sharing nothing with this account or an earlier entry; no target is the same user as one of the own identities or another target |
| `CallTargets.KnownExactly` | lib/call_client.go:129-147 | a participant is known by its three numbers that have a server, without agent and device |
| `CallTargets.SameUserExactly` | lib/call_client.go:121-133 | identities are told apart by user, integrator and server alone |
| `CallTargets.ChosenAreDisjoint` | lib/call_client.go:133-150 | identities of those rung are pairwise disjoint and disjoint from the own ones |
| `CallTargets.EveryoneIsReached` | lib/call_client.go:127-162 | a chain of shared identities leads from every participant with an identity to someone rung or to this account |
| `CallRegistry.CallSession.TransitionTo` | lib/call_crypto_session.go:100-135 | a move happens exactly when it is legal |
| `CallRegistry.PhasesAreSafe` | lib/call_crypto_session.go:100-135 | over any attempts: Active only from Connecting, Connecting only from Ringing or the waiting room, Ended final, incoming never Idle or Calling |
| `CallRegistry.ActiveHasConnected` | lib/call_crypto_session.go:112-121 | an active call has been connecting, and before that ringing or in the waiting room |
| `CallRegistry.ArcsExactly` | lib/call_crypto_session.go:100-135 | a call that has not ended can stay, end, or take one of seven listed arcs, dialling only if outgoing; one that has ended can do nothing |
| `CallRegistry.PathIsWalked` | lib/call_crypto_session.go:100-135 | every path along the arcs is walked |
| `CallRegistry.Walk` | lib/call_crypto_session.go:100-135 | a session driven along any attempts visits what its specification says, and all of a path |
| `CallRegistry.CallsConnect` | lib/call_crypto_session.go:100-135 | placed and accepted calls can become active, through the waiting room or not, and end |
| `CallRegistry.Registry.Insert` | lib/call_registry.go:34-43 | refuses a known id, conserves handles |
| `CallRegistry.Registry.SetMediaTask` | lib/call_registry.go:48-66 | the replaced handle, or the given one for an unknown call, is cancelled |
| `CallRegistry.Registry.Transition` | lib/call_registry.go:80-86 | moves the phase of that call only |
| `CallRegistry.Registry.Remove` | lib/call_registry.go:108-123 | the removed entry's handle is cancelled |
| `CallRegistry.Registry.AbortAll` | lib/call_registry.go:127-139 | every handle ever given is then cancelled, once |
| `CallRegistry.RunRegistry` | lib/call_registry.go:34-139 | over any run each handle is held by exactly one entry or was cancelled exactly once |
| `AppStateKeys.Requests.PruneExpired` | lib/cache.go:44-50 | drops exactly the entries before the cutoff |
| `AppStateKeys.Requests.Begin` | lib/appstate.go:541-561 | one turn of the filter; the table stays within 1024 entries |
| `AppStateKeys.Requests.Forget` | lib/appstate.go:566-570 | a failed request's keys are forgotten |
| `AppStateKeys.FailedIsAskedAgain` | lib/appstate.go:562-571 | a key of a failed request can be asked for again at once if the table has room, and no other key is touched |
| `AppStateKeys.TurnIsSound` | lib/appstate.go:550-560 | only due keys are asked for, once each, and all other entries stay |
| `AppStateKeys.DueIsAsked` | lib/appstate.go:541-561 | a missing key never asked for, or over 24 hours ago, is asked for unless 1024 others fill the table, and a full table is first cleared of all that are over 24 hours old |
| `AppStateKeys.OpeningKeepsRecent` | lib/appstate.go:547-549 | pruning never drops an entry within its 24 hours |
| `AppStateKeys.SpacedExactly` | lib/appstate.go:541-572 | with overlapping requests and sends returning whenever they do, no next request at any point comes within 24 hours of an earlier unfailed one for the same key, exactly when no failure erases the record of a later request within its day |
| `AppStateKeys.RequestsAreSpaced` | lib/appstate.go:541-572 | and then the table is bounded, no key occurs twice in a request, and requests for one key are more than 24 hours apart unless the earlier send failed |
| `AppStateKeys.TimelyFailuresAreClean` | lib/appstate.go:562-571 | failures within a day of their sends erase no such record, however late the successes |
| `AppStateKeys.UncleanIsInsecure` | lib/appstate.go:562-571 | after a failure that does, a key is asked for again at once |

## Left out

- Key and SSRC derivation, packet protection, codecs, relay sockets: outside these files; keys are
  terms over the secret and id they come from, SSRCs and participant ids are functions of the id.
- Receiver pipelines: the three pipelines and the SRTCP receiver of a device are stored in the
  receiver by value, since nothing else refers to them; mixer queues likewise.
- Rollover tracking: a tracker is an opaque number that is kept or reset.
- GroupReceive.Registry.ApplyGroupUpdateTransaction: the callback is given by how often it commits;
  what else it does is not modelled.
- Zeroing of key byte slices, reference to shared slices, logging, diagnostics, timers.
- Float rounding: samples are reals and positions are integers scaled by 16000.
- Lookups that only read the registry (`UnprotectVideo`, `DecodeAudio` and the like),
  `groupRekeyRecipients`, `cloneGroupCallUpdate`, distribution of requested epochs: forwarding and
  copying.
- VideoNegotiation.EngineCall.TransitionVideo: one step; `VideoInterleaving` has the sections, there
  without keyframes, the sender's own orientation and the end of the call.
- GroupControl.CheckedPublicationSettles: the startup loop gives up after a number of attempts; here
  it may go on, or stop after any.
- GroupControl.PublicationExactly: says so for operations that no registry of an earlier call under
  the same id holds up; that a settled registry never falls behind needs no such condition
  (`GroupControl.SettledNeverFallsBehind`).
- Notifications.CallbackSeesEverything: one goroutine drives the call; across goroutines a state is
  stored before it is enqueued, so no order is claimed there. Hand flags inside queued states are
  not modelled.
- Waiting-room and screen-share state, call phases of the live call: same pattern as the group
  state callback, or not validated by the code.
- CallTargets.RemoteGroupCallTargets: gives identities, not their printed form.
- ReactionDelivery.Converse: covers senders that send fewer than 2^64 reactions, all valid UTF-8; any
  other is refused before anything is sent (`ReactionDelivery.AppDataSender.SendReaction`).
- The fanout, the notification queue and the engine's group control are state machines over values,
  because their steps belong to several goroutines: object identity is not captured there.
- AudioSource.ResampleAll: rates of at least one sample per second, as the file readers ensure.
- `putBoundedCache` and `incrementBoundedCounter`: short helpers without a property across calls.
- The MP3 reader: the WAV reader with two channels.
- Outbound fanout (`Send`, `PrimarySend`, `ResendAllocates`): a loop over independent sockets.
