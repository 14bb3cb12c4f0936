# lal: a verified model of the streaming core

lal is a live-streaming server. This project models six of its parts in Dafny
and proves what they promise, for all inputs and all runs. Each part that works
by updating objects, arrays or maps in place is written here as a class or a
method that does the same, and is proved equal to a function; the theorems are
about that function. Verify everything with `dafny verify dfyconfig.toml`.

| module | part of lal |
|---|---|
| `Bytes` | bytes, fixed-width integers, bitwise XOR and OR on naturals |
| `TsPacket`, `TsPack`, `TsFields` | the MPEG-TS packetiser: packets as values with their receiver, the in-place packer, and every byte in figures |
| `HlsStream`, `HlsMuxer`, `HlsCuts` | the HLS muxer: where it cuts, the object with its fragment ring, playlists and files, and an account of the cuts from the events alone |
| `RelayGroup`, `LogicGroup` | a group's regions under its lock as functions, and the object that runs them |
| `RelayProtocol`, `RelayTheorems`, `RelayServed` | the relay-pull and relay-push goroutines of all groups as a transition system, what they keep, and what each call and step does in the fields of a group |
| `Nalu`, `NaluForms`, `AvPacketRemux`, `SequenceHeaders` | NAL unit splitting, joining and conversion, their result for every form of input, the remuxer that relies on it, and what it stores and sends by type numbers |
| `DummyAudio`, `DummyStages`, `GopCache`, `RtmpMsg` | the dummy-audio filter, what it does told from its input, the two GOP rings, and the message predicates they read |
| `WebSocket` | masking eight bytes at a time, and frame headers |
| `InviteIndex` | the three-map index of GB28181 invites |

## How to read the protocol

A state of `RelayProtocol` holds any number of groups, any number of goroutines
and the tokens of the handshake semaphore. A label is one atomic step: a call to
a group from outside, or one lock region, slot operation, return of Start,
success callback or session end of one goroutine. `Runs` and `After` give the
runs, so a lemma about `After(s, ls)` with `Initial(s)` speaks of every
reachable state under every interleaving. The clock and the outcome of each
network operation are arguments of the labels. Start may fail at any time, also
after its success callback has run, and the callback of a failed Start may come
late. The group object of `LogicGroup` is tied to the same region functions, so
the protocol is about the code of its methods.

## Where the code differs from what it says or should do

- **Short key frames** (pkg/mpegts/pack.go:206-222). When the last packet already
  has an adaptation field, the body is meant to move to the end. The base of the
  move is 4 plus the field's length byte, one less than the field's end, and the
  write position is then reset onto the moved PES header. A receiver gets the
  frame back exactly when the key frame fills its first packet, or the raw data is
  one to three zero bytes: `TsPacket.DepacketiseInvertsIff`. The same base lets the
  stuffing run over the last byte of the PCR: `TsPacket.PacketPcr`.
- **Time stamps** (pkg/mpegts/pack.go:279-290). The top three bits are not shifted
  left by one, so packing and reading are inverse exactly below 2^30:
  `TsPacket.ReadPtsInvertsIff`.
- **A leak in relay pull** (pkg/logic/group__relay_pull.go:473-481 with
  pkg/rtsp/client_pull_session.go:83-88 and 216-219). The RTSP callback adds the
  session at the DESCRIBE response; if SETUP or PLAY fails after that, Start fails
  and the goroutine returns without deleting the session. The group then refuses
  every publisher and starts no pull for ever:
  `RelayTheorems.LeakFromTheStart` and `FailedAfterAddBlocksForEver`;
  `SessionIffHeld` says exactly when a session is in its group. A callback that
  comes after the failure leaks in the same way: `LateCallbackLeaks`.
- **Disposing of a group** (pkg/logic/group__.go:269-303). Dispose clears what serves
  an input but keeps a pull session, which then has no remuxer, filter or hook:
  `RelayServed.CallServesIff` says that no other call does this, and exactly when this
  one does.
- **Dummy audio near 2^32 ms** (pkg/remux/dummy_audio_filter.go:148-156). The clock
  of the catch-up loop wraps and only ever shows the residues 0, 21 and 42 modulo 64
  after the first video frame. Fed a frame at or above the last such time below
  2^32, the loop never ends: `DummyAudio.FrameReturnsIff`, with a stream that gets there in
  `HangIsReachable`. A first frame in the last 21 ms makes the clock wrap:
  `AudioNeverDriftsIff`, with a stream in `WrapIsReachable`.
- **Key flag of a packet** (pkg/remux/avpacket2rtmp.go:202-272). Each picture unit
  overwrites the frame-type byte, so the last one decides; an IDR unit with an SEI
  unit behind it opens no GOP in a cache:
  `AvPacketRemux.KeyFlagIsThatOfLastPicture` and `IdrThenSeiOpensNoGop`.
- **Start-code length** (pkg/avc/avc.go:413-443). The comment speaks of lengths 3
  and 4; the code returns the whole run of zeros plus one.
- **WebSocket mask key** (pkg/base/websocket.go:101-146, 177-245). It is written
  little-endian and read big-endian; the bytes on the wire agree, so the payload
  does too. `WebSocket.ReadInvertsMake` says what comes back.
- **Short fragments** (pkg/hls/muxer.go:139-149, 245-292). A force flag can outlive
  the fragment it was set for, and Dispose clears none, so a boundary can cut a
  fragment shorter than target and maximum: `HlsStream.ShortCutsPossibleIff` says how
  many of them are possible.
- **Shared SSRCs** (pkg/gb28181/server.go:2227-2264). Clearing one of two keys with
  the same SSRC loses the other from the SSRC map:
  `InviteIndex.SharedSsrcLosesAKey`, and exactly when this cannot happen:
  `ExactInverseIffNeverShared`.

## Model

| member | source | states |
|---|---|---|
| TsPack.PackPcr | pkg/mpegts/pack.go:260-277 | the six bytes put behind what is written read back as the clock modulo 2^33 with extension 0 (section 2.4.3.5 of ISO/IEC 13818-1); nothing else changes |
| TsPack.PackPts | pkg/mpegts/pack.go:279-290 | the five bytes put behind what is written read back as the time stamp if and only if it is below 2^30; nothing else changes |
| TsPack.WriteHeaders | pkg/mpegts/pack.go:84-186 | a blank packet becomes one with transport header, PCR field for a first key packet and PES header for a first packet, and the write position is behind them |
| TsPack.WriteStuffingField | pkg/mpegts/pack.go:223-242 | the stuffing field put where no adaptation field was: its length byte, its flags byte, 0xFF filling, and nothing else |
| TsPack.WritePacket | pkg/mpegts/pack.go:60-246 | one round of the loop, stuffing in place included, leaves exactly the packet of the specification and moves the input position by what it carried |
| TsPack.PackOne | pkg/mpegts/pack.go:60-246 | each packet is appended behind the earlier ones, which stay untouched, before space that is still zero |
| TsPack.BytesInvertIff | pkg/mpegts/pack.go:48-251 | the round trip of the bytes: cut at 188 and taken apart, they give the raw frame back if and only if it is not a key frame shorter than its first packet, or is a few zeros |
| TsPack.Frame.Pack | pkg/mpegts/pack.go:48-251 | the bytes returned are the concatenated packets of the frame, 188 for each of the packets the frame forces; cut and taken apart they give the frame back exactly in those cases; the continuity counter advances by their number modulo 256 |
| TsPacket.BufferSuffices | pkg/mpegts/pack.go:49-69 | the preallocation of max(1024, 2 * length) always has room for one more packet while data is left: the growth branch is dead |
| TsPacket.PacketHeader | pkg/mpegts/pack.go:84-109 | every packet starts with 0x47, carries the counter's low nibble and has the unit-start flag exactly on the first |
| TsPacket.PacketCarries | pkg/mpegts/pack.go:189-246 | a receiver finds in each packet exactly the next bytes of the frame that fit, behind the PES header on the first; all packets but a short key frame's first |
| TsPacket.ShortKeyPayload | pkg/mpegts/pack.go:206-222 | the payload a receiver finds in the first packet of a short key frame: the frame from its second byte on, written over the displaced PES header |
| TsPacket.ShortKeyPacket | pkg/mpegts/pack.go:206-222 | and so the data it takes from it |
| TsPacket.ReadPcrInverts | pkg/mpegts/pack.go:260-277 | reading a PCR field inverts writing it, modulo 2^33 and with extension 0, for every clock |
| TsPacket.PacketPcr | pkg/mpegts/pack.go:111-131 | the first packet of a key frame, and no other packet, carries a PCR, max(dts - 63000, 0) modulo 2^33; its extension is 0, and 255 for a short key frame, whose stuffing runs over the last byte |
| TsPacket.DamagedReadsIff | pkg/mpegts/pack.go:206-222 | such a packet still reads back if and only if the data is one to three zero bytes |
| TsPacket.DepacketiseInvertsIff | pkg/mpegts/pack.go:48-251 | the same for the list of packets |
| TsPacket.PacketsAreCounted | pkg/mpegts/pack.go:56-109 | the packet count is the one the sizes force; all start with the sync byte, only the first starts a unit, and counters step by one modulo 16 |
| TsPacket.ReadPtsInvertsIff | pkg/mpegts/pes.go:80-86 | reading inverts packing a time stamp if and only if it is below 2^30; the flag nibble always comes back |
| TsPacket.HeaderIntactIff | pkg/mpegts/pack.go:206-246 | the first payload starts with the PES header if and only if the frame is no short key frame, or agrees with the header byte for byte where it is written over it |
| TsPacket.ReadableIsIntact | pkg/mpegts/pack.go:206-246 | every frame a receiver reads is of that kind |
| TsPacket.ParseInvertsPack | pkg/mpegts/pes.go:50-77 | for every frame whose header is whole, parsing the first payload gives the stream id, the length field of frame and header, flags 3 or 2, header size 10 or 5 and the fixed bits, and each time stamp 63000 ticks on, exactly when that is below 2^30 |
| TsFields.PacketInFigures | pkg/mpegts/pack.go:60-246 | every byte but the PES header of every packet: sync byte, unit start, PID, control and counter, the adaptation field with clock and flags or its length, flags byte and 0xFF filling, and which bytes of the frame stand where |
| TsFields.PesInFigures | pkg/mpegts/pack.go:133-186 | the bytes of the PES header: prefix, stream id, flags, header length, and the time stamps 63000 ticks on in five bytes each |
| TsFields.CountInFigures | pkg/mpegts/pack.go:56-109 | the number of packets: first bodies of 157, 162, 165 or 170 bytes, later ones of 184 |
| TsFields.PayloadsAddUp | pkg/mpegts/pack.go:189-246 | the payloads of a frame hold the PES header and the data, not a byte more or less, even for short key frames |
| TsFields.PesLengthIsRight | pkg/mpegts/pack.go:165-174 | the length a receiver reads is that of all payload bytes behind the field, 0 when that is above 0xFFFF, for every frame whose header is whole |
| HlsStream.BodiesAreTheInput | pkg/hls/muxer.go:165-193 | in every run the bodies of all fragments in order are the input from the first boundary frame on: nothing lost, doubled or moved |
| HlsStream.FragmentsAreStretches | pkg/hls/muxer.go:165-296 | in every run each fragment is a stretch of the input behind the PAT/PMT current at its opening, starts with a boundary frame unless a timestamp jump opened it, and lasts from its opening clock to the largest clock fed |
| HlsStream.ShortCutsAreBounded | pkg/hls/muxer.go:245-292 | in every run, also one that goes on after Dispose, the fragments closed at a boundary and shorter than both target and maximum are at most one more than the disposals, so at most one until the first; none without a target |
| HlsStream.ShortCutsPossibleIff | pkg/hls/muxer.go:245-292 | a run with exactly d disposals and exactly k such fragments exists if and only if k is within the bound: 0 without a target, else d, and one more when the maximum does not exceed the jump limit |
| HlsStream.BoundaryLeavesShortOpen | pkg/hls/muxer.go:245-296 | after a boundary feed the open fragment is just opened, or shorter than the target |
| HlsStream.DurationsTelescope | pkg/hls/muxer.go:213-227 | until the first Dispose, for a clock that never goes back the closed durations add up to the current opening clock minus the first one |
| HlsStream.AllDurations | pkg/hls/muxer.go:139-149 | closing the last fragment makes all durations add up to the last clock minus the first opening clock |
| HlsCuts.LimitsInMilliseconds | pkg/hls/muxer.go:313-346 | target, maximum and forward jump limit from the configured milliseconds: 90 ticks each, twice and ten times the duration, 3 s without one |
| HlsCuts.CutsAreAsTold | pkg/hls/muxer.go:210-311 | in every run, from the events alone: a fragment ends by a jump if and only if its last frame drives the timeline and is beyond the limits; at a boundary if and only if it is a boundary frame that is no jump and the fragment is at its target, or it or an earlier frame found it at its maximum, or a cut still waits; nothing in between does either; and the next fragment is marked as a discontinuity unless it was cut for its target alone |
| HlsMuxer.Muxer.FeedMpegts | pkg/hls/muxer.go:165-193 | one feed takes the object to the next state of the stream specification, so that every state is the run of all events fed; ring, playlists and files stay in step with it |
| HlsMuxer.Muxer.FeedPatPmt | pkg/hls/muxer.go:161-163 | the same for new tables |
| HlsMuxer.Muxer.Dispose | pkg/hls/muxer.go:139-149 | the same for the end; the live playlist is then marked ended if a fragment was open |
| HlsMuxer.Muxer.UpdateFragment | pkg/hls/muxer.go:210-296 | the branches over the fields do exactly what the decision of the stream specification says |
| HlsMuxer.Muxer.FinalizeClosingFragmentDuration | pkg/hls/muxer.go:358-366 | the recalibration at a close changes nothing: the ring is as before |
| HlsMuxer.Muxer.OpenFragment | pkg/hls/muxer.go:373-421 | opens a fragment with the current tables, or does nothing and reports an error while one is open |
| HlsMuxer.Muxer.CloseFragment | pkg/hls/muxer.go:426-475 | the open fragment joins the closed ones, and the live playlist is that of the fragments closed so far |
| HlsMuxer.Muxer.WritePlaylist | pkg/hls/muxer.go:526-558 | from the ring, the live playlist gets exactly the entries of the last fragmentNum closed fragments, consecutive ids in order |
| HlsMuxer.Muxer.WriteRecordPlaylist | pkg/hls/muxer.go:477-524 | the record playlist keeps one entry for every fragment ever closed |
| HlsMuxer.Muxer.RemoveStaleFile | pkg/hls/muxer.go:449-457 | the slot that comes next names the file to delete, the one a whole ring round back |
| HlsMuxer.Muxer.IncrFrag | pkg/hls/muxer.go:585-592 | from the window of c closed fragments to that of c + 1: the listed ones are the last min(c + 1, fragmentNum), the first of them is what is left of c + 1 |
| HlsMuxer.RingPush | pkg/hls/muxer.go:568-592 | slot k mod capacity holds fragment k for each of the last capacity ids, through a push |
| HlsMuxer.RingUpdate | pkg/hls/muxer.go:594-603 | and through an update of the newest fragment |
| HlsMuxer.RingOldest | pkg/hls/muxer.go:618-637 | the next slot holds the fragment one round back exactly when there is one |
| HlsMuxer.CloseDeletesOne | pkg/hls/muxer.go:449-457 | in ASAP mode a close deletes exactly file c - capacity when there are that many, and otherwise nothing |
| HlsMuxer.ListedFilesExist | pkg/hls/muxer.go:449-457 | no listed file is ever deleted, and at most fragmentNum + deleteThreshold closed files remain |
| HlsMuxer.WhatIsListed | pkg/hls/muxer.go:526-558 | the live playlist of every run: how many entries, their numbers from the media sequence on, and each duration as the largest clock fed less the opening one |
| HlsMuxer.WhatIsOnDisk | pkg/hls/muxer.go:373-475 | the files of every run: which there are in each cleanup mode, and in each the tables of its opening and then everything fed until it closed |
| LogicGroup.Group.constructor | pkg/logic/group__relay_pull.go:151-172 | a new group has no session, a static pull that retries for ever if configured, and an idle entry for each push target |
| LogicGroup.Group.CheckStartPull | pkg/logic/group__relay_pull.go:518-554 | the early returns together are the conjunction of backoff, input, flag, enable, auto-stop and retry conditions |
| LogicGroup.Group.ShouldAutoStopPull | pkg/logic/group__relay_pull.go:556-575 | stops when nobody watches: at once for 0, after the time limit otherwise, never for a negative limit |
| LogicGroup.Group.StartPull | pkg/logic/group__relay_pull.go:25-42 | resets the backoff, sets the parameters and starts an attempt if every condition is met, as the region says |
| LogicGroup.Group.StartAttemptIfNeeded | pkg/logic/group__relay_pull.go:343-387 | raises the flag for the new attempt exactly when every condition is met |
| LogicGroup.Group.StopPull | pkg/logic/group__relay_pull.go:47-53 | disables the API pull, clears count, flag and backoff, and names the session to dispose of |
| LogicGroup.Group.StopPullLocked | pkg/logic/group__relay_pull.go:496-516 | the same without the API flag |
| LogicGroup.Group.KickPull | pkg/logic/group__relay_pull.go:327-335 | stops the pull exactly when the id is that of a pull session of the group |
| LogicGroup.Group.SchedulePullBackoff | pkg/logic/group__relay_pull.go:179-193 | doubles the delay from 1 s up to 30 s and sets the earliest next time with its jitter |
| LogicGroup.Group.OnPullStartFailedLocked | pkg/logic/group__relay_pull.go:195-203 | only the attempt that holds the flag lowers it and backs off |
| LogicGroup.Group.OnPullSessionExitedLocked | pkg/logic/group__relay_pull.go:205-215 | only the current session's exit touches the backoff: reset on a clean end, longer on an error |
| LogicGroup.Group.ConfirmAttempt | pkg/logic/group__relay_pull.go:434-449 | the second check: counts a start exactly for the attempt that still holds the flag |
| LogicGroup.Group.TickPullModule | pkg/logic/group__relay_pull.go:298-308 | refreshes the last time with a subscriber, then stops the pull or starts an attempt |
| LogicGroup.Group.TickGroup | pkg/logic/group__.go:244-249 | the tick: pull first, then pushes |
| LogicGroup.Group.AddSubSession | pkg/logic/group__out_sub.go:164-166 | a new subscriber may start a pull |
| LogicGroup.Group.DisposeGroup | pkg/logic/group__.go:269-303 | forgets all but HLS subscribers and every publisher, but keeps a pull session |
| LogicGroup.Group.StartPushIfNeeded | pkg/logic/group__relay_push.go:66-159 | every idle target is marked and gets a goroutine; targets that push already are left alone |
| LogicGroup.Group.StopPushIfNeeded | pkg/logic/group__relay_push.go:161-171 | every push session is dropped from the table, flags stay up |
| LogicGroup.Group.AddRtmpPushSession | pkg/logic/group__relay_push.go:19-26 | the session joins its target |
| LogicGroup.Group.DelRtmpPushSession | pkg/logic/group__relay_push.go:28-36 | session and flag of its target are cleared |
| LogicGroup.Group.ClearPushingFlag | pkg/logic/group__relay_push.go:108-116 | after a timeout the flag comes down if the target exists |
| LogicGroup.Group.AddInput | pkg/logic/group__in.go:336-354 | an input brings the MPEG-TS remuxer, dummy-audio filter and hook its configuration asks for, and starts the pushes |
| LogicGroup.Group.DelInput | pkg/logic/group__in.go:364-386 | no publisher, remuxer, filter or hook is left; the pull session stays |
| LogicGroup.Group.AddCustomizePubSession | pkg/logic/group__in.go:21-63 | replaces a lone customize publisher of another stream name, refuses one of the same name and any other clash |
| LogicGroup.Group.AddRtmpPubSession | pkg/logic/group__in.go:65-90 | accepted exactly without another input |
| LogicGroup.Group.AddRtspPubSession | pkg/logic/group__in.go:93-111 | accepted exactly without another input, with the RTMP remuxer |
| LogicGroup.Group.AddRtmpPullSession | pkg/logic/group__in.go:113-159 | a pull session joins and its attempt ends; refused when an input exists, and then only its own attempt flag comes down |
| LogicGroup.Group.AddRtspPullSession | pkg/logic/group__in.go:161-202 | the same for RTSP |
| LogicGroup.Group.DelCustomizePubSession | pkg/logic/group__in.go:268-279 | only the current publisher is deleted |
| LogicGroup.Group.DelRtmpPubSession | pkg/logic/group__in.go:281-292 | only the current publisher is deleted |
| LogicGroup.Group.DelRtspPubSession | pkg/logic/group__in.go:294-304 | only the current publisher is deleted |
| LogicGroup.Group.DelPullSession | pkg/logic/group__in.go:306-332 | the current pull session leaves with everything that served it; another one only ends its own attempt |
| RelayGroup.AddsOnlyWhenFree | pkg/logic/group__in.go:21-111 | a publisher is accepted if and only if there is no input, or it is a customize publisher that takes over from one of another name; then it is the only input, and a refusal changes nothing |
| RelayGroup.DeletesOnlyTheCurrent | pkg/logic/group__in.go:268-304 | deleting the current publisher leaves no input and nothing that served it; deleting any other changes nothing at all |
| RelayGroup.DeletesOnlyTheCurrentPull | pkg/logic/group__in.go:306-332 | the same for pull sessions, except that an attempt's own flag comes down |
| RelayGroup.BackoffDoublesToItsCap | pkg/logic/group__relay_pull.go:174-193 | after k failures in a row the delay is min(1000 * 2^(k-1), 30000) ms, the window ends within its jitter, and no attempt starts before that delay has passed |
| RelayProtocol.SlotCount | pkg/logic/group__relay_pull.go:107-121 | the configured number of slots, 512 without one, so at least one |
| RelayProtocol.ApplyEffect | pkg/logic/group__relay_pull.go:343-516 | every call from outside keeps a group healthy, raises the flag only when it was down and for the attempt it starts, never touches a pull session, and marks exactly the targets it starts |
| RelayProtocol.AddPullEffect | pkg/logic/group__in.go:113-202 | a success callback always ends its own attempt, sets the session exactly without another input, and never raises the flag |
| RelayProtocol.StepKeepsInv | pkg/logic/group__relay_pull.go:389-491 | every step of every goroutine keeps the invariants of slots, goroutines, flag, sessions and targets |
| RelayProtocol.RunKeepsInv | pkg/logic/group__relay_pull.go:389-491 | so does every run, under every interleaving |
| RelayProtocol.ReleaseFindsAToken | pkg/logic/group__relay_pull.go:142-148 | a goroutine that gives its slot back finds a token |
| RelayTheorems.AtMostOneInput | pkg/logic/group__in.go:21-397 | in every run a group has at most one of its five inputs, and without one no remuxer, dummy-audio filter or hook |
| RelayTheorems.SlotsAreConserved | pkg/logic/group__relay_pull.go:123-148 | in every run the tokens are exactly the goroutines, pull and push, that hold a slot; at most n are inside Start; an ended or waiting goroutine holds none |
| RelayTheorems.EveryReleaseTakesAToken | pkg/logic/group__relay_pull.go:391-415 | in every run every exit path gives its slot back, and the default branch is never taken |
| RelayTheorems.GoroutinesEnd | pkg/logic/group__relay_pull.go:389-491 | every step brings its goroutine nearer to its end and no other step takes it back: at most seven of its own in any run |
| RelayTheorems.FlagNamesALiveAttempt | pkg/logic/group__relay_pull.go:71-72 | in every run a raised isSessionPulling names an attempt of the group that has not ended |
| RelayTheorems.TheFlagComesDown | pkg/logic/group__relay_pull.go:195-203 | the group cannot wedge: the attempt that holds the flag can always move, and after five moves of its own it no longer holds it |
| RelayTheorems.StartsAreBounded | pkg/logic/group__relay_pull.go:434-448 | with a fixed retry number R at most R + 1 goroutines of the group enter Start between one stopPull and the next |
| RelayTheorems.StartsFromZero | pkg/logic/group__relay_pull.go:544-551 | the same from any state in which no start is counted yet |
| RelayTheorems.SessionIffHeld | pkg/logic/group__in.go:113-202 | in every run an attempt's session is in its group if and only if the attempt added it and has not ended, or its Start failed |
| RelayTheorems.FailedAfterAddBlocksForEver | pkg/logic/group__relay_pull.go:473-481 | once a Start has failed after its session was added, in every continuation the session stays, every publisher is refused and no pull starts |
| RelayTheorems.FailedAfterAddIsReachable | pkg/logic/group__relay_pull.go:371-381 | and six steps of one goroutine lead there from any fresh attempt |
| RelayTheorems.LeakFromTheStart | pkg/logic/group__relay_pull.go:25-42 | and so do they, behind a StartPull without auto-stop, from every initial system |
| RelayTheorems.PushFlagIffOnePusher | pkg/logic/group__relay_push.go:85-157 | in every run a target's flag is up if and only if exactly one goroutine pushes to it, and goroutines only name targets of the table |
| RelayTheorems.LateCallbackLeaks | pkg/logic/group__relay_pull.go:371-381 | the callback of an attempt that has failed and ended can still come, and then leaks the session too if the group has no input |
| RelayServed.CallServesIff | pkg/logic/group__in.go:21-396 | one call leaves every input with exactly the remuxers, filter and hook it should have, if and only if it is not a Dispose that finds a served pull session |
| RelayServed.InputsAreServed | pkg/logic/group__in.go:21-396 | so in every run until such a Dispose: the remuxer to RTMP exactly for an RTSP input, the one to RTSP exactly for another when configured, MPEG-TS remuxer, filter and hook exactly for an input when configured |
| RelayServed.AttemptsIff | pkg/logic/group__relay_pull.go:518-575 | which calls spawn a pull attempt, as one condition on the fields for each: StartPull ignores the backoff, timer and subscriber do not, and none goes past the retry number |
| RelayServed.SpawnsQueued | pkg/logic/group__relay_pull.go:343-387 | what a call spawns waits for a slot, and an attempt is an RTMP one if and only if its URL starts with rtmp |
| RelayServed.DisabledStartsNothing | pkg/logic/group__relay_pull.go:518-554 | with neither pull enabled no run starts an attempt until a StartPull |
| RelayServed.ExitTurnsBackoff | pkg/logic/group__relay_pull.go:205-215 | the end of the current session: a clean one clears the backoff, an error doubles it within 1 to 30 s and sets the next time; any other session changes nothing |
| RelayServed.GivingUpBacksOff | pkg/logic/group__relay_pull.go:195-203 | an attempt that gives up lowers the flag it holds and backs off; one without it changes nothing |
| RelayServed.StopForgets | pkg/logic/group__relay_pull.go:496-516 | a stop, asked for or because nobody watches, clears count, flag and backoff; only one asked for disables the API pull |
| RelayServed.PushesStartIff | pkg/logic/group__relay_push.go:67-157 | an accepted RTMP or RTSP publisher and each tick start a push to every idle target; no other call starts any |
| RelayServed.PusherInTable | pkg/logic/group__relay_push.go:19-43 | a pusher puts its session into its own entry and clears it, with the flag, when it ends; nothing else in the group changes |
| Nalu.IterateNaluStartCode | pkg/avc/avc.go:424-443 | the loop finds the leftmost start code from the given position with its whole run of zeros, or nothing |
| Nalu.FindIsFirst | pkg/avc/avc.go:424-443 | that result is leftmost and its run of zeros is maximal |
| Nalu.FirstIsUnique | pkg/avc/avc.go:424-443 | and it is the only such result |
| Nalu.NothingInRest | pkg/avc/avc.go:481-495 | where no start code is found the rescan from any later position finds none |
| Nalu.SplitNaluAnnexb | pkg/avc/avc.go:452-520 | the iterator with its collecting callback computes the split of the input, errors included |
| Nalu.AnnexbSplitFits | pkg/avc/avc.go:477-520 | a successful split has a unit, none empty, each with at least three bytes of prefix of its own |
| Nalu.SplitInvertsJoin | pkg/avc/avc.go:452-520 | splitting inverts joining for all streamable units (section B.1 of ITU-T H.264) and start codes of any lengths from three on |
| Nalu.SplitNaluAvcc | pkg/avc/avc.go:464-561 | the AVCC iterator with its collecting callback computes the split, errors included |
| Nalu.JoinNaluAvcc | pkg/h2645/h2645.go:93-113 | the buffer filled at a moving position is the list of units with four-byte lengths |
| Nalu.SplitInvertsJoinAvcc | pkg/avc/avc.go:522-561 | the AVCC split inverts the AVCC join |
| Nalu.AvccSplitFits | pkg/avc/avc.go:522-561 | its units are not empty and each has four bytes of its own |
| Nalu.JoinOfSplit | pkg/avc/avc.go:522-561 | AVCC input is the join of its units if and only if no record was dropped |
| Nalu.Avcc2Annexb | pkg/avc/avc.go:563-572 | each unit behind a four-byte start code; what was converted before an error is returned with it |
| Nalu.Annexb2Avcc | pkg/avc/avc.go:574-584 | each unit behind its length |
| Nalu.RoundTripIff | pkg/avc/avc.go:563-584 | for every x, Annexb2Avcc(Avcc2Annexb(x)) succeeds and is x if and only if x splits, its units are streamable, and they with their lengths are all of x |
| NaluForms.EveryStream | pkg/avc/avc.go:452-520 | every byte stream with a start code is bytes without one, then units that may be empty behind start codes |
| NaluForms.SplitOfStream | pkg/avc/avc.go:452-520 | and of that form the split gives the units that are not empty, with an error if and only if nothing stands behind the last start code |
| NaluForms.SplitOfOther | pkg/avc/avc.go:477-495 | input without a start code is handed on whole, with an error |
| NaluForms.EveryRecord | pkg/avc/avc.go:522-561 | every AVCC input is whole records, empty ones among them, and then less than one |
| NaluForms.SplitOfRecords | pkg/avc/avc.go:522-561 | and of that form the split gives the records that are not empty and what there is of the incomplete one, and succeeds if and only if the input ends with a record that is not empty |
| NaluForms.RecordsConverted | pkg/avc/avc.go:563-572 | for every AVCC input the bytes and the error of its conversion to a byte stream |
| NaluForms.StreamConverted | pkg/avc/avc.go:574-584 | for every byte stream with a start code the bytes and the error of its conversion to AVCC |
| AvPacketRemux.AvPacket2RtmpRemuxer.FeedVideoPacket | pkg/remux/avpacket2rtmp.go:150-279 | the video branch writes within its buffer, never reads an empty unit, and emits what the specification says: sequence headers as they complete, then one body of all pictures |
| AvPacketRemux.AvPacket2RtmpRemuxer.FeedOne | pkg/remux/avpacket2rtmp.go:172-247 | a unit that is no picture is stored, or completes a sequence header, which is then emitted and cleared |
| AvPacketRemux.AvPacket2RtmpRemuxer.EmitRtmpAvMsg | pkg/remux/avpacket2rtmp.go:344-392 | the metadata goes out once, before the first message; without it nothing goes out |
| SequenceHeaders.PicturesByNumber | pkg/remux/avpacket2rtmp.go:172-247 | the pictures are exactly the units whose number is none of 7, 8 and 9, or of 32 to 35 for H.265, in order |
| SequenceHeaders.PacketByNumbers | pkg/remux/avpacket2rtmp.go:150-279 | for every packet: each stored set is afterwards the last unit of its number since the last header sent; each header goes out as its sets complete, then one body of the other units, behind the metadata once |
| SequenceHeaders.SetsThenPicture | pkg/remux/avpacket2rtmp.go:172-223 | with no set waiting, SPS, PPS and picture send the header built from that SPS and that PPS, and then the picture, byte by byte |
| SequenceHeaders.HevcSetsThenPicture | pkg/remux/avpacket2rtmp.go:224-272 | the same for VPS, SPS, PPS and picture of H.265 |
| AvPacketRemux.SplitFits | pkg/remux/avpacket2rtmp.go:155-180 | for both formats the units of a successful split are not empty and leave three bytes each: the premise of the buffer size |
| AvPacketRemux.PicturesFit | pkg/remux/avpacket2rtmp.go:167-223 | the AVCC join of the pictures always fits len(payload) + len(nals) |
| AvPacketRemux.PacketMessage | pkg/remux/avpacket2rtmp.go:276-279 | whenever a packet splits, holds pictures and metadata is there, the last message that goes out is one video message with the body of its pictures |
| AvPacketRemux.MessageIsReadable | pkg/remux/avpacket2rtmp.go:276-279 | from byte 5 on that message splits back into exactly the pictures of the packet |
| AvPacketRemux.KeyFlagIsThatOfLastPicture | pkg/remux/avpacket2rtmp.go:202-272 | the caches take that message for a key frame if and only if the last picture is one; that is right, if and only if no picture is a key picture or the last one is |
| AvPacketRemux.IdrThenSeiOpensNoGop | pkg/remux/avpacket2rtmp.go:202-272 | the byte stream of an IDR unit and an SEI unit gives a message that is no key frame to a cache and opens no GOP |
| DummyAudio.DummyAudioFilter.Feed | pkg/remux/dummy_audio_filter.go:56-66 | one message from which the program returns takes the object to the next state of the specification, timestamps and sentinels of uint32 included |
| DummyAudio.DummyAudioFilter.HandleAnalysisStage | pkg/remux/dummy_audio_filter.go:68-113 | the analysis stage queues, or leaves for normal or dummy and replays its queue |
| DummyAudio.DummyAudioFilter.HandleDummyStage | pkg/remux/dummy_audio_filter.go:120-159 | audio is dropped, metadata and headers pass, a video frame passes behind all audio due by its time |
| DummyAudio.DummyAudioFilter.CatchUp | pkg/remux/dummy_audio_filter.go:148-156 | whenever the clock can show a time above t, the loop ends and makes exactly the frames before the first such time |
| DummyAudio.StepOfClock | pkg/remux/dummy_audio_filter.go:204-210 | durations of 21, 21 and 22 ms are the steps of floor(64 k / 3) |
| DummyAudio.TicksAreIdeal | pkg/remux/dummy_audio_filter.go:149-155 | however often it wraps, the uint32 clock is the ideal clock modulo 2^32 |
| DummyAudio.LoopEndsIff | pkg/remux/dummy_audio_filter.go:148-156 | from any clock the loop ends on t if and only if some v with t < v < 2^32 is 0, 21 or 42 modulo 64 after the origin of the clock; otherwise no frame it makes is ever after t |
| DummyAudio.InputIsConserved | pkg/remux/dummy_audio_filter.go:56-159 | over every stream from which the program returns, at any times: in analysis the queue is the input, in normal stage the messages handed on are the input, in dummy stage those that are not audio are the input without audio |
| DummyStages.StageFromInput | pkg/remux/dummy_audio_filter.go:68-113 | over every stream from which the program returns: normal stage if and only if audio comes before any video frame that is waitAudioMs or more, in uint32, after the first; dummy stage if and only if such a frame comes first; else still analysing |
| DummyStages.AudioInTimePasses | pkg/remux/dummy_audio_filter.go:56-118 | in the first case what is handed on is exactly the input, without a silent frame; in the last nothing is |
| DummyStages.DummyStageWeaves | pkg/remux/dummy_audio_filter.go:120-202 | in the second it is the input without audio, an AAC sequence header of the same time directly before each video one, silent frames only directly before video frames, and nothing else, byte by byte; the messages that waited included |
| DummyAudio.StageIsFinal | pkg/remux/dummy_audio_filter.go:56-113 | the stage leaves analysis at most once |
| DummyAudio.AudioNeverDriftsIff | pkg/remux/dummy_audio_filter.go:120-210 | over every such stream the k-th silent frame handed on is at t0 + floor(64 k / 3) for all k if and only if there is one frame only or t0 + 21 < 2^32; then the last is not after the latest video frame, and the next is later than the video frame just fed |
| DummyAudio.WrapIsReachable | pkg/remux/dummy_audio_filter.go:148-156 | a stream that wraps: first frame 10 ms below 2^32, then frames at 5 and 11; the program returns from all, with silent frames at 2^32 - 10 and 11 |
| DummyAudio.FrameReturnsIff | pkg/remux/dummy_audio_filter.go:141-158 | in the dummy stage of any stream whose first video frame is not at the sentinel 2^32 - 1 the program returns from a video frame at t if and only if some v with t < v < 2^32 is 0, 21 or 42 modulo 64 after the first video frame; otherwise it makes silent frames for ever |
| DummyAudio.LargestTimestampHangs | pkg/remux/dummy_audio_filter.go:141-158 | from every such dummy stage a frame at the largest timestamp hangs the program |
| DummyAudio.HangIsReachable | pkg/remux/dummy_audio_filter.go:141-158 | for every waiting time below 2^32 - 22 two frames lead to a dummy stage, from which a third 2 ms below 2^32 never returns |
| GopCache.HoldsLastGops | pkg/remux/gop_cache.go:99-183 | after any feeds the cache is the last gopNum GOPs of the stream, each cut to its limit, with nothing from before the first key frame |
| GopCache.GopsStartAtKeys | pkg/remux/gop_cache.go:157-179 | every GOP starts with a key frame that was fed and holds at most singleGopMaxFrameNum + 1 items under a limit |
| GopCache.Ring.FeedNewGop | pkg/remux/gop_cache.go:172-179 | a full ring drops its oldest slot and the next slot starts a GOP: the abstract cache after a key item |
| GopCache.Ring.FeedLastGop | pkg/remux/gop_cache.go:157-170 | the newest slot grows unless it is full: the abstract cache after another item, and the answer says whether it was taken |
| GopCache.ListedPush | pkg/remux/gop_cache.go:172-187 | filling the free slot and moving the end appends a GOP, across the wrap |
| GopCache.ListedUpdate | pkg/remux/gop_cache.go:157-170 | writing the slot before the end replaces the newest GOP, across the wrap |
| GopCache.GopCache.Feed | pkg/remux/gop_cache.go:99-129 | headers replace the stored ones, other messages reach the ring, and the answer is false exactly when a frame was dropped for lack of room, for every message the predicates read without a panic |
| GopCache.GopItemsInBytes | pkg/remux/gop_cache.go:99-129 | which messages reach the ring, by their first bytes |
| GopCache.GopCache.GetGopCount | pkg/remux/gop_cache.go:131-133 | the number of GOPs of the abstract cache |
| GopCache.GopCache.GetGopDataAt | pkg/remux/gop_cache.go:135-140 | GOP number pos of the abstract cache, or nothing out of range |
| GopCache.GopCache.Clear | pkg/remux/gop_cache.go:142-149 | as if nothing had been fed |
| GopCache.GopCacheMpegts.Feed | pkg/remux/gop_cache_mpegts.go:42-51 | the second ring keeps the same abstract cache, keyed by boundaries |
| GopCache.GopCacheMpegts.GetGopCount | pkg/remux/gop_cache_mpegts.go:53-55 | its number of GOPs |
| GopCache.GopCacheMpegts.GetGopDataAt | pkg/remux/gop_cache_mpegts.go:57-62 | its GOP number pos, or nothing out of range |
| GopCache.GopCacheMpegts.Clear | pkg/remux/gop_cache_mpegts.go:64-68 | as if nothing had been fed |
| RtmpMsg.AnswersInBytes | pkg/base/t_rtmp.go:140-228 | key sequence headers, key frames and AAC sequence headers by the values of their first bytes, extended headers included; never two at once |
| RtmpMsg.ReadableLength | pkg/base/t_rtmp.go:140-228 | how long a payload must be for the questions not to run past its end |
| WebSocket.Cipher | pkg/base/websocket.go:247-294 | head, 64-bit middle and tail loops together XOR each byte with its mask byte, for every payload and offset (section 5.3 of RFC 6455) |
| WebSocket.MaskChunk | pkg/base/websocket.go:281-289 | one 64-bit round does that to its eight bytes and nothing else |
| WebSocket.XorWord | pkg/base/websocket.go:281-289 | XOR of two little-endian words is the bytewise XOR |
| WebSocket.XorChunk | pkg/base/websocket.go:281-289 | so one XOR with the doubled mask masks eight bytes |
| WebSocket.MaskedInvolutive | pkg/base/websocket.go:247-294 | masking twice is the identity |
| Bytes.XorAtBit | pkg/base/websocket.go:247-294 | each bit of a masked byte is that of the byte exactly where the mask has a 0 |
| WebSocket.MakeWsFrameHeader | pkg/base/websocket.go:101-146 | the bits or-ed into a zeroed buffer are the header fields, length in 7, 16 or 64 bits and mask key of section 5.2 |
| WebSocket.ReadWsPayload | pkg/base/websocket.go:177-245 | reads one frame off the stream and unmasks it, or fails on a short read |
| WebSocket.ReadInvertsMake | pkg/base/websocket.go:177-245 | round trip for all three length encodings, masked or not: the payload comes back and the rest of the stream stays; the header comes back too, mask key byte-reversed, if and only if the opcode has 4 bits |
| WebSocket.HeaderLayout | pkg/base/websocket.go:101-146 | the header byte by byte: each bit of the first byte, the shortest length encoding with the highest byte first, and the mask key with the lowest byte first |
| WebSocket.CutFrameIsShort | pkg/base/websocket.go:177-245 | a frame that is cut short anywhere is a short read |
| InviteIndex.InviteMediaIndex.OnInviteMediaInfoSet | pkg/gb28181/server.go:2227-2248 | the three maps are those of the run with this set, and the invite is live |
| InviteIndex.InviteMediaIndex.OnInviteMediaInfoClear | pkg/gb28181/server.go:2250-2264 | the same for a clear |
| InviteIndex.InviteMediaIndex.BindMediaKeySsrc | pkg/gb28181/server.go:2346-2369 | the same for a bind; an unknown key or a zero SSRC changes nothing |
| InviteIndex.InviteMediaIndex.CheckSsrc | pkg/gb28181/server.go:2266-2278 | an answer carries the SSRC asked for and is the live entry of its own key |
| InviteIndex.InviteMediaIndex.GetMediaInfoByKey | pkg/gb28181/server.go:2304-2316 | the answer is the live invite of the key |
| InviteIndex.ApplyKeepsSound | pkg/gb28181/server.go:2227-2369 | every operation keeps the maps consistent and the first map equal to the live invites |
| InviteIndex.RunIsSound | pkg/gb28181/server.go:2227-2369 | after any operations an SSRC entry has a nonzero SSRC, its own, and is the entry of its media key, and the third map mirrors the first |
| InviteIndex.LiveIffInvited | pkg/gb28181/server.go:2227-2264 | after any operations a key is live if and only if it was invited, with a name and a key, and not cleared since |
| InviteIndex.LiveIsLatest | pkg/gb28181/server.go:2227-2369 | and its information is that of its last invite, with the SSRC bound since |
| InviteIndex.SsrcIsLastTouched | pkg/gb28181/server.go:2227-2369 | in every run, shared or not, what the SSRC map has under an SSRC is what the last operation that gave or freed it left |
| InviteIndex.ApplyKeepsComplete | pkg/gb28181/server.go:2227-2369 | an operation after which no SSRC is shared keeps every live key findable |
| InviteIndex.ExactInverseIffNeverShared | pkg/gb28181/server.go:2227-2369 | the SSRC map is the exact inverse throughout a run if and only if no two live keys ever share a nonzero SSRC |
| InviteIndex.SharedSsrcLosesAKey | pkg/gb28181/server.go:2227-2264 | otherwise a live key can be lost |
| InviteIndex.LookupSsrcIsLive | pkg/gb28181/server.go:2266-2278 | a lookup never gives a wrong key, and while the index is complete never misses one |

## Left out

- Panics and `recover` paths of goroutines: on the RTSP panic path the attempt flag is not cleared, so the protocol is claimed without panics.
- StartRelay, StopRelay and StartPushOnly (pkg/logic/group__relay.go): they set the same pull parameters and call the same regions; their own push session is not modelled.
- RTMP and RTSP session internals: Start, its callback and the end of a session are nondeterministic steps.
- `isPullModuleAlive` and the reclaiming of idle groups: groups are never removed from the system.
- HLS start, recording and GOP-cache clearing inside addIn and delIn: the caches have their own module.
- RelayTheorems.StartsAreBounded: says nothing of a negative retry number, which the code takes as no limit.
- The clock inside one lock region: the readings of the time within a region are one argument.
- DummyAudio.DummyAudioFilter.Feed: asks for a message from which the program returns, because a method that never does cannot be shown to end; which those are is proved as an if and only if.
- GopCache.GopCache.Feed: asks for a message whose bytes the predicates can index one after the other as they do; on the others the code panics. The dummy-audio filter asks the same of video messages, in the stages that look at them.
- WebSocket.ReadWsPayload: a 64-bit length too large to allocate panics in the original, and is a short read here.
- GopCache.Ring: one class stands for the slots of both rings, whose code is the same; slices handed out share memory with the slots in the original, here they are values.
- The metadata of a GOP cache (`SetMetadata`): stored and returned as is.
- TARGETDURATION and the printed form of playlists: times are exact 90 kHz ticks where the original divides into floating-point seconds, and the +0.5 fold is not modelled.
- HlsMuxer.Muxer.FeedMpegts: no observer and no I/O errors; files are a ghost map from fragment id to what was written, names are not modelled.
- Cleanup of HLS files by the server manager, and directories.
- TsPacket.ParseInvertsPack: the bit reader of the naza library on input that is too short is not part of this model.
- Audio branches of FeedAvPacket and InitWithAvConfig (pkg/remux/avpacket2rtmp.go): no split and no buffer at a moving position, so nothing hard to say.
- AvPacketRemux.AvPacket2RtmpRemuxer.FeedVideoPacket: the builders of sequence headers and metadata are arbitrary functions that may fail.
- The fallback scans of CheckSsrc and GetMediaInfoByKey over all devices, and copies of the entries handed out.
- SPS and PPS parsing, PSI tables and CRC, FLV tags, the frame-rate ring and the merge writer: they would only add easier members.
- Sockets, SIP, HTTP handlers, configuration files, snapshots and logging.
