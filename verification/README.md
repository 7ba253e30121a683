# Comelit ViP client: a model of its protocol core, with proofs

This project models the part of the Comelit ViP integration for Home Assistant that speaks the panel's protocol, and the
RTSP relay and supervisor built on it, and proves what that code keeps over every run. All source paths below are relative
to the repository's root.

The program is a set of asyncio tasks that share state. The model takes its smallest unit from there: a *step* is the code
between two awaits, and everything the outside decides (what the panel sends, whether a write works, how an await ends, when
a task is cancelled, how much time passes, what a random draw gives) is an argument of the step. A run is a sequence of
steps; a step that is not possible where it stands does nothing, so a theorem over all sequences is a theorem over all
interleavings.

State that the source updates in place is a class here too (`CtpConnection`, `ViperSession`, `VideoCall`, `Episode`,
`RtspRelay`, `ComelitVipHub`, the relay's `Client`), with the source's fields, and its methods are the steps. Each method is
proved to do to the object exactly what a function does to the object's value (`ensures View() == ...`); runs are sequences
of those functions, and the results over all runs are lemmas about them. An object in a state that those results speak of is
`Sound`. What the session writes is kept in the order it is written (`ViperSession.wire`), and the contracts of the methods that
write say, field by field, which packet or frame that is. The methods that are whole steps (`ViperSession.Receives`, `RtspRelay.OwnerResumes`, `ComelitVipHub.Resumes` and
their siblings) keep it so.

| file | what it is about |
|---|---|
| `Bytes.dfy` | bytes, fixed-width integers, `Option` and `Result` |
| `Frames.dfy` | framing and channel management (`viper/frames.py`) and the loop that reads frames |
| `Ctp.dfy` | CTP packets, logical addresses, INVITE bodies, connection ids (`viper/ctp.py`) |
| `Wire.dfy` | the wire formats of these, byte for byte |
| `Rtp.dfy` | the RTP parser, against an encoder written from sections 5.1 and 5.3.1 of RFC 3550 (`viper/rtp.py`) |
| `Calls.dfy` | one TCP lifetime: the connection table, the reader, the watchers of inbound calls, displacement |
| `CallProperties.dfy` | what every interleaving of them keeps: pairing of rings and ends, the table, which INVITE rings |
| `CallEnds.dfy` | exactly when rings and ends match: the calls nobody follows any more, and what still ends them |
| `Deliveries.dfy` | what becomes of every packet the reader takes: its inbox, its acknowledgement, the renewals |
| `Watching.dfy` | when an inbound call stops being watched, and with which cause its end is reported |
| `Connections.dfy` | how a connection begins, who takes its id over, what a release frees, which one is the registration |
| `Unfiled.dfy` | connections that have left the table, to the end of the run |
| `Session.dfy` | the session's objects: connections, waiting, channels, requests, the teardown (`viper/session.py`) |
| `Teardown.dfy` | what a completed teardown means for whoever waits on a connection |
| `Video.dfy` | the outgoing call: its channels, the drop-oldest queue, the close that can be resumed (`viper/call.py`) |
| `Arrivals.dfy` | which of the panel's frames reach the queue of an open call |
| `Handles.dfy` | the pool of channel handles the call shares with everything else on the connection |
| `RelayClient.dfy` | one RTSP client: rewriting sequence numbers and timestamps over call restarts (`viper/rtsp.py`) |
| `Relay.dfy` | the relay's episodes, the idle watch, who may dial when (`viper/rtsp.py`) |
| `RelayRuns.dfy` | over whole runs of it: when a call is dialled again, and towards what |
| `RelayViewers.dfy` | whom a packet reaches, when the grace begins, what those who asked for a call are told |
| `RtspRelay.dfy` | the relay's objects |
| `Abandon.dfy` | the relay and the call together: an owner that is cancelled, and the call it closes |
| `ClientRuns.dfy` | the relay and one of its clients together: all the frames the client gets, on its clock |
| `Routing.dfy` | which entrance a request URL names (`viper/rtsp.py`) |
| `LinkHistory.dfy` | what a history of connects, losses, replacements and attempts means: the lifetime, the backoff owed (`hub.py`) |
| `Link.dfy` | the supervisor: backoff, lease, replacement, notifications, over such histories (`hub.py`) |
| `LinkWaits.dfy` | when the supervisor attempts to connect: not before the delay owed has passed, and no later than it must |
| `Watchdog.dfy` | what a pass of the watchdog comes to |
| `Captures.dfy` | the pictures and clips owed after a ring, fed by the session's reports (`hub.py`) |
| `Hub.dfy` | the hub's object |

`dafny verify dfyconfig.toml` checks everything.

## Where the code does not do what one might expect

The model follows the code. Where a property one would like is false, a lemma says exactly when it holds, or shows the input.

- A ring can lose its end: when the reader is cancelled, or meets an exception nobody catches, while it acknowledges the
  INVITE, and when the watcher is cancelled before its first step. Nobody follows such a call any more; either way there is a
  run after which no continuation reports its end (`CallProperties.EscapeLosesEnd`). Its end is reported if and only if a
  later INVITE displaces it (`CallEnds.GivenUpEndsByDisplacement`), so rings and ends match in a settled run exactly when
  every call given up was displaced after that (`CallEnds.RingsMatchExactlyWhen`).
- The entry such a ring leaves in `_captures_owed` outlives its TCP connection, and the next call that ends on the same id,
  even a floor call, starts the capture (`Captures.EndFiresExactlyWhen`). `Captures.StaleEntryMisfires` runs through both
  connections, from an entrance call whose reader is cancelled to the picture a floor call starts.
- An episode cancelled before its first step never sets `ready`, so its waiters wait for ever
  (`Relay.WaitersHangExactlyWhen`).
- `_wait_idle` is described as waiting until the clients have been gone for the grace period; what it checks is that none is
  *playing* at the end of one (`Relay.ReturnsAfterGrace`). A client that is connected and not yet playing does not keep the
  call: `Relay.SilentClientsDoNotCount` is such a run.
- Closing a video call clears the handler of the latest RTPC channel the panel opened. If the panel opened several, frames
  on the others still reach the queue and can push the end of the stream out of it (`Video.EndSurvivesExactlyWhen`); two are
  enough (`Video.SecondChannelLosesEnd`).
- A call towards an address that cannot be encoded can never be closed: every `close` raises at the RELEASE
  (`Video.OnlyALiveLinkIsUsed`).
- `end_task` passes a CancelledError on whenever its caller has been cancelled. So the close of a call does not get to the
  RELEASE exactly if its owner was cancelled before it or while it is ending the call's own tasks, and one of those that
  were still to end was running (`Video.CancelledOwnerCannotClose`, `Abandon.CloseStopsExactlyWhen`). That is how
  `abandon_call` ends a relayed call (`Abandon.AbandonedCallIsLeftUp`), and it is enough that it comes during the close of
  one that has ended by itself (`Abandon.ClosingUnasked`). Either way the panel is told nothing, the next request dials all
  the same, and nobody closes that call again (`Abandon.UntoldCallIsLeftUp`).
- A close can close a channel that is not the call's: the panel opens channels on any handle, and the call takes the handle
  after its video handle without asking whether it is taken, or the management channel's (`Handles.NextHandleIsTaken`). It
  does so exactly if some step put that handle into two hands and neither has let go of it
  (`Handles.SharedExactlyWhen`, `Handles.CloseTakesFromOthersExactlyWhen`).
- With an empty relay path the advertised URL of every target but the first, and the control track of the first, lead
  nowhere (`Routing.UrlLeadsBack`).
- A client that sends a second PLAY is told `rtptime=0` although its clock has moved on (`RelayClient.AnnouncedStart`).
- `build_ctp_packet` calls itself the inverse of `parse_ctp_packet`. Parsing undoes building; building undoes parsing only
  for payloads with zero padding and no interior NUL in an address (`Ctp.BuildUndoesParse`). `decode_logaddr` says any byte
  round-trips; trailing NULs do not matter, but interior ones are refused on the way back (`Ctp.AddressFieldRoundTrip`).
- `build_ctp_packet` accepts bodies up to 65535 bytes, of which only those up to 65500 fit a frame
  (`Ctp.PacketOverFrame`).

## Model

| member | source | states |
|---|---|---|
| Frames.ReadLoop | custom_components/comelit_vip/viper/session.py:317-335 | the reading loop hands on exactly the frames that lie whole in the bytes so far, in order, and stops at the end of the stream or at a bad header |
| Frames.StreamRoundTrip | custom_components/comelit_vip/viper/frames.py:36-48 | any frames, encoded back to back and cut at any byte, decode to the frames that arrived whole |
| Frames.WholeIsLargest | custom_components/comelit_vip/viper/frames.py:36-40 | and that is the longest prefix of them that fits the cut |
| Frames.DecodePartial | custom_components/comelit_vip/viper/session.py:322-324 | inside a frame nothing of it is handed on |
| Frames.MgmtRoundTrip | custom_components/comelit_vip/viper/frames.py:51-87 | the management encoders are read back as written; a channel name must be four ASCII characters |
| Wire.FrameBytes | custom_components/comelit_vip/viper/frames.py:36-40 | a frame is 00 06, length and handle low byte first, 00 00 and the payload, of at most 65535 bytes |
| Wire.HeaderBytes | custom_components/comelit_vip/viper/frames.py:43-48 | eight bytes are a header exactly if they begin with 00 06, and length and handle stand there low byte first |
| Wire.OpenBytes | custom_components/comelit_vip/viper/frames.py:51-62 | a request to open a channel, byte for byte, with and without a registration |
| Frames.CloseBytes | custom_components/comelit_vip/viper/frames.py:65-67 | and one to close it |
| Wire.AckBytes | custom_components/comelit_vip/viper/frames.py:70-72 | and the acknowledgement of one the panel opened |
| Ctp.AddressRoundTrip | custom_components/comelit_vip/viper/ctp.py:76-91 | decoding undoes encoding for every logical address |
| Ctp.AddressFieldRoundTrip | custom_components/comelit_vip/viper/ctp.py:76-91 | encoding undoes decoding for exactly the fields with no interior NUL, and refuses the others |
| Ctp.ParseUndoesBuild | custom_components/comelit_vip/viper/ctp.py:94-138 | a packet can be built exactly when its fields fit, and is then parsed back unchanged |
| Ctp.BuildUndoesParse | custom_components/comelit_vip/viper/ctp.py:94-138 | a parsed payload is rebuilt byte for byte if and only if its padding is zero and neither address has an interior NUL |
| Ctp.PacketOverFrame | custom_components/comelit_vip/viper/session.py:300-315 | a built packet fits a frame if and only if its body has at most 65500 bytes, and then comes out at the other end as it went in |
| Ctp.ToggleIsXor | custom_components/comelit_vip/viper/ctp.py:166-169 | the arithmetic the model uses for the exclusive or is the exclusive or |
| Ctp.PeerInvolution | custom_components/comelit_vip/viper/ctp.py:166-169 | each end's id for a connection is the other's with the top bit toggled, and only that bit |
| Wire.AddressBytes | custom_components/comelit_vip/viper/ctp.py:83-91 | an address is its characters and zeros up to ten bytes |
| Wire.PacketBytes | custom_components/comelit_vip/viper/ctp.py:119-138 | a packet is flags, 18, connection, sequence, acknowledgement and length high byte first, the body padded with zeros to a multiple of four, FF FF FF FF, source and destination |
| Wire.KindBytes | custom_components/comelit_vip/viper/ctp.py:53-73 | which flags open and close a connection, where the opcode is, and which packet has a release cause |
| Wire.InviteBytes | custom_components/comelit_vip/viper/call.py:113-121 | the body of an INVITE is read back field by field, and a ring with it names the packet's own addresses and connection, and the origin, call id and tag of the body |
| Wire.ShortInvite | custom_components/comelit_vip/viper/session.py:488-505 | an INVITE is readable exactly from 28 bytes on, and has a tag from 40 on; a shorter one rings with nothing known |
| Rtp.ParseUndoesEncode | custom_components/comelit_vip/viper/rtp.py:24-54 | whatever CSRC list, extension and padding surround a payload, the parser recovers it and the header fields |
| Rtp.EncodeUndoesParse | custom_components/comelit_vip/viper/rtp.py:24-54 | the parser accepts nothing but packets of the RFC's format, read as the RFC says |
| Wire.RtpBytes | custom_components/comelit_vip/viper/rtp.py:26-54 | the fixed header, byte for byte, under any CSRC list, extension and padding |
| RelayClient.Client.RtpFrame | custom_components/comelit_vip/viper/rtsp.py:88-112 | a rewritten frame is interleaved with its exact length and parses back to the same marker and payload under the client's sequence number, timestamp and SSRC; too long a payload fails after the counters have moved |
| RelayClient.Client.Play | custom_components/comelit_vip/viper/rtsp.py:508-518 | PLAY announces the client's next sequence number and rtptime zero |
| RelayClient.OffsetTracksElapsed | custom_components/comelit_vip/viper/rtsp.py:94-101 | the stored offset and last output are what an unbounded clock says, modulo 2^32 |
| RelayClient.ClockRefinesUnbounded | custom_components/comelit_vip/viper/rtsp.py:88-112 | over any packets and any number of call restarts, the n-th timestamp is the sum of the deltas inside calls plus the gap per restart, the n-th sequence number the first plus n, and the SSRC constant |
| RelayClient.AnnouncedStart | custom_components/comelit_vip/viper/rtsp.py:508-518 | the announced sequence number is always the next frame's; the announced rtptime is, whatever the next packet, if and only if none was sent yet |
| RelayClient.PanelPacketsFit | custom_components/comelit_vip/viper/rtsp.py:102-112 | no packet the reader can cut out of the panel's stream is too long for the 16-bit interleaved length |
| Routing.Server.TargetOf | custom_components/comelit_vip/viper/rtsp.py:526-542 | for every string at all, the target found is a configured one |
| Routing.UrlLeadsBack | custom_components/comelit_vip/viper/rtsp.py:171-174 | the URL advertised for a target, alone, with a slash or with a control track, leads back to it if and only if the path is not empty and the target is the first or named, or the path is empty and it is the first without a track |
| Routing.UnknownNameIsRefused | custom_components/comelit_vip/viper/rtsp.py:537-542 | a request in that form for a name that is no configured target names nobody |
| Routing.OtherPathIsRefused | custom_components/comelit_vip/viper/rtsp.py:534-536 | and so does one outside the served path |
| Calls.DispatchKeeps | custom_components/comelit_vip/viper/session.py:391-422 | a packet, with any displacement it causes, keeps the session's invariant: calls open in the trace are filed and followed, filed calls are open in the trace |
| Calls.InviteAckKeeps | custom_components/comelit_vip/viper/session.py:477-486 | so does every way the acknowledgement of an INVITE can come back |
| Calls.FinishWatchKeeps | custom_components/comelit_vip/viper/session.py:539-542 | so does the end of a watcher |
| Calls.TeardownKeeps | custom_components/comelit_vip/viper/session.py:281-290 | so does a teardown |
| Calls.StepKeeps | custom_components/comelit_vip/viper/session.py:391-542 | so does every step of the reader, the watchers and the owners of outgoing connections |
| CallProperties.ReportsAlternate | custom_components/comelit_vip/viper/session.py:440-486 | in every run, the reports for each connection id are a ring, its own end, a ring, its own end, and so on, with at most one ring open |
| CallProperties.RingsAreFresh | custom_components/comelit_vip/viper/session.py:470-476 | every ring is of a new connection |
| CallProperties.EndsOnce | custom_components/comelit_vip/viper/session.py:521-542 | no call's end is reported twice, in any run |
| CallProperties.EveryRingEnds | custom_components/comelit_vip/viper/session.py:456-486 | once everything has settled, rings are ends plus the calls still open, all of which were given up; without the two escapes they are equal and nothing is open |
| CallEnds.RingsMatchExactlyWhen | custom_components/comelit_vip/viper/session.py:440-486 | once everything has settled, rings equal ends if and only if every call that was given up was displaced at a later step |
| CallEnds.GivenUpEndsByDisplacement | custom_components/comelit_vip/viper/session.py:440-454 | the end of a call that was given up is reported if and only if a later INVITE displaces it |
| CallProperties.NothingLost | custom_components/comelit_vip/viper/session.py:477-486 | a call is given up only at the two escapes |
| CallProperties.EscapeLosesEnd | custom_components/comelit_vip/viper/session.py:477-486 | for every payload that parses as an INVITE, each escape leads to a state after which no continuation of the run reports the end of its ring |
| CallProperties.TableIsConsistent | custom_components/comelit_vip/viper/session.py:687-695 | in every reachable state an id leads to a live connection with that id for the peer and the toggled one for us, and to no two ids the same connection |
| CallProperties.ReleaseSparesSuccessor | custom_components/comelit_vip/viper/session.py:697-700 | releasing a displaced or failed connection, however late, changes nothing |
| CallProperties.TeardownFailsEveryone | custom_components/comelit_vip/viper/session.py:281-284 | after a teardown no id leads anywhere and whatever was filed has failed, its queued packets followed by one sentinel |
| CallProperties.RingsExactlyWhenNew | custom_components/comelit_vip/viper/session.py:408-454 | a packet rings if and only if it is an INVITE opening whose call id is not the one in force on its id, in a map that every INVITE updates and nothing else in the packet does |
| CallProperties.CallIdsOtherwiseOnlyForgotten | custom_components/comelit_vip/viper/call.py:108-112 | outside packets, only opening an own connection puts a call id in that map, so echoes of our INVITE and retransmits never ring |
| Deliveries.EveryPacketArrives | custom_components/comelit_vip/viper/session.py:145-149 | in every run and for every connection, what was taken from its inbox and then what is in it is, in order, every packet the reader took for it that had no body or whose acknowledgement came back sent, the INVITE that opened it among them, and the sentinel last once it has failed |
| Deliveries.AcknowledgesTheLatest | custom_components/comelit_vip/viper/session.py:136-139 | the number a connection acknowledges is one more, modulo 256, than that of the last packet with a body that reached it |
| Deliveries.RenewalsAreCounted | custom_components/comelit_vip/viper/session.py:412-418 | the renewals are exactly the repeated registration answers that were acknowledged, and each is answered at once |
| Watching.WaitingHasHeardNothing | custom_components/comelit_vip/viper/session.py:525-534 | in every run, nothing that a watcher has got while it goes on waiting was a RELEASE or had the FIN bit |
| Watching.EndTellsTheCause | custom_components/comelit_vip/viper/session.py:521-542 | every end is reported with the cause of the RELEASE its watcher got, with none if it got a FIN first or neither, or with none because the call was displaced |
| Connections.NewCallTakesOver | custom_components/comelit_vip/viper/session.py:440-476 | in every run, an INVITE with a new call id gets a connection with the panel's id, the toggled one for us, and the addresses turned round; whoever held the id has failed and is woken, its end is reported before the ring, and it is no longer the registration |
| Connections.OpensAsAsked | custom_components/comelit_vip/viper/session.py:687-695 | a connection of ours has the id that was drawn, above 0 and below 7FFF, is filed under the toggled one, and begins as its owner asked |
| Connections.ReleasedForGood | custom_components/comelit_vip/viper/session.py:697-700 | a released connection's id is freed, no other is, and no id leads to it in any continuation |
| Connections.WatchOverReports | custom_components/comelit_vip/viper/session.py:533-542 | a watcher whose timeout ran out, whose FIN is out or that was cancelled frees the id unless a successor has it and reports the end, with the cause it heard, unless that was done |
| Connections.RegistrationMeans | custom_components/comelit_vip/viper/session.py:678-682 | in every run, a connection is the registration if and only if it was registered, and since then no other was, no call took its id, and no teardown was completed |
| Session.FailedInboxDrains | custom_components/comelit_vip/viper/session.py:151-176 | on a failed connection the waits get the queued packets in order and from then on, each of them, the failure |
| Session.FailedNeverHangs | custom_components/comelit_vip/viper/session.py:157-176 | nor does a wait for one opcode suspend there, and it leaves the failure for the next |
| Session.WaitSettles | custom_components/comelit_vip/viper/session.py:157-176 | a wait goes through the inbox up to the first entry that is the sentinel, a packet it asked for or a RELEASE, and takes it with what lay before: it returns the packet, is refused with the RELEASE's cause, or fails and puts the sentinel back |
| Teardown.EveryWaitComesBack | custom_components/comelit_vip/viper/session.py:281-290 | in every run, on every connection that was in the table when a teardown completes, each wait from then on comes back: with the queued packets in order, and after them with the failure |
| Teardown.LaterWaitsComeBack | custom_components/comelit_vip/viper/session.py:157-176 | after any later steps, what is left there is the end of what was queued with the failure behind it, and a wait for any opcode or none comes back |
| Unfiled.UnfiledForGood | custom_components/comelit_vip/viper/session.py:697-700 | a connection its id does not lead to is never filed again and never changes between failed and not, however the run goes on |
| Unfiled.FailedOnlyDrains | custom_components/comelit_vip/viper/session.py:151-155 | on a failed connection nothing is queued any more, however the run goes on |
| Session.CtpConnection.Send | custom_components/comelit_vip/viper/session.py:117-132 | a failed connection writes nothing; otherwise what is written parses back to the connection's fields and this body |
| Session.CtpConnection.SendDone | custom_components/comelit_vip/viper/session.py:132-134 | only a packet with a body advances the sequence number, modulo 256 |
| Session.CtpConnection.Acknowledge | custom_components/comelit_vip/viper/session.py:136-139 | the acknowledgement number follows the packet's |
| Session.CtpConnection.Fail | custom_components/comelit_vip/viper/session.py:151-155 | failing sets the flag and leaves a sentinel behind what is queued |
| Session.CtpConnection.Wait | custom_components/comelit_vip/viper/session.py:157-176 | the loop computes what `WaitFor` says: a matching packet, a refusal, the failure with its sentinel put back, or a timeout |
| Session.ViperSession.Transmit | custom_components/comelit_vip/viper/session.py:117-134 | what goes out parses to a packet with the connection's own ids, numbers and addresses, these flags and this body; nothing goes out if it has failed or does not fit |
| Session.ViperSession.Displace | custom_components/comelit_vip/viper/session.py:440-454 | the holder's id is freed, it fails, a call's end is reported and marked, the registration forgotten if it was that |
| Session.ViperSession.HandleIncoming | custom_components/comelit_vip/viper/session.py:145-149 | a packet with a body is acknowledged, by a packet without one that bears the next number, before it is queued; one without is queued at once; nothing else enters the inbox |
| Session.ViperSession.AcceptInbound | custom_components/comelit_vip/viper/session.py:456-486 | an INVITE makes a connection, files it and rings before it is acknowledged; anything else is only acknowledged; the acknowledgement goes back to where the packet came from, under the toggled id |
| Session.ViperSession.DispatchPacket | custom_components/comelit_vip/viper/session.py:408-422 | a packet goes to its connection, displaces it, opens a new one, or is ignored |
| Session.ViperSession.DispatchCtp | custom_components/comelit_vip/viper/session.py:391-422 | bytes that are no packet change nothing |
| Session.ViperSession.AckDone | custom_components/comelit_vip/viper/session.py:412-418 | once it is acknowledged, and only then, the packet is at the end of the inbox; a repeated registration answer is then counted and answered with a FIN of the connection's own, and nothing else is written |
| Session.ViperSession.InviteAckDone | custom_components/comelit_vip/viper/session.py:477-486 | an acknowledged call has the INVITE in its inbox and gets a watcher; one that could not be acknowledged ends at once; one that was cut short is left to nobody |
| Session.ViperSession.ReleaseConnection | custom_components/comelit_vip/viper/session.py:697-700 | the id is freed only if it still leads to this very connection |
| Session.ViperSession.FinishWatch | custom_components/comelit_vip/viper/session.py:539-542 | the end is reported unless a displacement did so before |
| Session.ViperSession.WatcherReceives | custom_components/comelit_vip/viper/session.py:526-534 | a RELEASE or FIN ends the watch, with its cause, after a FIN of the connection's own is written if it still lives; nothing else is written |
| Session.ViperSession.NewConnection | custom_components/comelit_vip/viper/session.py:687-695 | a new connection has the id, addresses and numbers it was made with, and is filed under its peer's id |
| Session.ViperSession.Registered | custom_components/comelit_vip/viper/session.py:678-682 | the answered registration is the one that renewals are for, and its FIN goes out on it, with its own fields, unless it was displaced |
| Session.ViperSession.RegistrationDone | custom_components/comelit_vip/viper/session.py:681-685 | the registration before is released unless it is the same or its id has a new holder, and the time is kept; an error that is not ViperError does neither |
| Session.ViperSession.RegistrationFailed | custom_components/comelit_vip/viper/session.py:671-677 | a registration that failed is released and clears the time; a cancelled one does neither |
| Session.ViperSession.FiledMeansAlive | custom_components/comelit_vip/viper/session.py:440-454 | of a sound session, a filed connection has not failed, and a call somebody follows and whose end is not reported is filed while the reader lives |
| Session.ViperSession.Receives | custom_components/comelit_vip/viper/session.py:391-422 | a packet is a step of the table's machine, and leaves the session sound |
| Session.ViperSession.ReaderResumes | custom_components/comelit_vip/viper/session.py:424-486 | so is the return of an acknowledgement, however it comes back |
| Session.ViperSession.WatcherGets | custom_components/comelit_vip/viper/session.py:526-534 | so is a watcher that gets an entry |
| Session.ViperSession.WatcherEnds | custom_components/comelit_vip/viper/session.py:521-542 | so is the end of a watcher |
| Session.ViperSession.Releases | custom_components/comelit_vip/viper/session.py:697-700 | so is the release of an outgoing connection |
| Session.ViperSession.TearsDown | custom_components/comelit_vip/viper/session.py:281-293 | so is the end of a teardown |
| Session.ViperSession.BeginTeardown | custom_components/comelit_vip/viper/session.py:263-267 | a teardown does nothing while another runs |
| Session.ViperSession.CutTeardownShort | custom_components/comelit_vip/viper/session.py:292-293 | a teardown that was cut short can be run again |
| Session.ViperSession.FinishTeardown | custom_components/comelit_vip/viper/session.py:281-293 | the table, both waiter maps, the open handles and the handlers are empty, every future that was waited for is done, and every filed connection has failed |
| Session.ViperSession.NextHandle | custom_components/comelit_vip/viper/session.py:563-569 | the search ends, and gives the first handle in cyclic order that is neither zero nor open, and marks it open |
| Session.SearchEndsWhenFree | custom_components/comelit_vip/viper/session.py:563-569 | the search can end if and only if some nonzero handle is free |
| Session.ViperSession.BeginOpen | custom_components/comelit_vip/viper/session.py:545-549 | a channel being opened has a handle of its own and a future of its own |
| Session.ViperSession.FinishOpen | custom_components/comelit_vip/viper/session.py:550-561 | a timeout or a lost link gives both back; a cancellation gives neither |
| Session.ViperSession.OpenChannel | custom_components/comelit_vip/viper/session.py:545-561 | a channel that did not open leaves the open handles and the waiters as they were, if and only if it was not cancelled |
| Session.ViperSession.OpenAcked | custom_components/comelit_vip/viper/session.py:349-351 | an acknowledgement wakes its own waiter and no other |
| Session.ViperSession.ReserveHandle | custom_components/comelit_vip/viper/session.py:571-573 | a handle the panel uses is out of the pool |
| Session.ViperSession.BeginCloseChannel | custom_components/comelit_vip/viper/session.py:575-580 | handler and handle are gone before anything is sent, and what is sent is the frame that closes this very handle |
| Session.ViperSession.BeginRequest | custom_components/comelit_vip/viper/session.py:593-600 | a request waits under a key that no other request waits under |
| Session.ViperSession.EndRequest | custom_components/comelit_vip/viper/session.py:601-605 | its answer wakes it, and answer or timeout forget it |
| Video.DropsOnlyTheOldest | custom_components/comelit_vip/viper/call.py:161-173 | in every run the queue is the newest at most 512 of everything put on it, none missing, and the consumer gets entries in the order they came |
| Arrivals.VideoArrives | custom_components/comelit_vip/viper/call.py:131-173 | for every opened call, what is put on its queue is, in order, exactly the RTP packets among the frames on its video handle, the one after it, and the RTPC channels the panel had opened by then, and the ends that were seen |
| Arrivals.DroppedOnlyWhenFull | custom_components/comelit_vip/viper/call.py:161-173 | in every run, an entry leaves the queue untaken only to make room for the 512 that came after it |
| Arrivals.NothingAfterLoss | custom_components/comelit_vip/viper/session.py:281-290 | once the link is lost no frame reaches the queue any more |
| Video.ReactKeepsRoutes | custom_components/comelit_vip/viper/call.py:153-159 | frames reach a call only on its own handles and on channels the panel opened, and after its close only on the latter |
| Video.DrainingEnds | custom_components/comelit_vip/viper/call.py:226-240 | after a close that leaves no video handle routed, the consumer never has to wait before it gets an end, and gets one within as many takes as were queued |
| Video.EndSurvivesExactlyWhen | custom_components/comelit_vip/viper/call.py:249-272 | the end of the stream survives everything that can follow if and only if the close leaves no video handle routed |
| Video.OneChannelEnds | custom_components/comelit_vip/viper/call.py:249-272 | which is so if the panel opened at most one RTPC channel |
| Video.SecondChannelLosesEnd | custom_components/comelit_vip/viper/call.py:153-159 | with two RTPC channels of the panel's, on whatever handles apart from the call's own, a close can be followed by frames that push the end out |
| Video.ResumableClose | custom_components/comelit_vip/viper/call.py:243-284 | over any number of closes, cut short anywhere and each finding its connection in any state, what is left to do only shrinks, the RELEASE is tried before the first channel and the channels in order; when a close ends, everything was tried |
| Video.CutShortIsRetried | custom_components/comelit_vip/viper/call.py:273-284 | what a close was cut short at, the RELEASE or a channel, is still to be done and comes first in the next |
| Video.SentAsTheLinkAllows | custom_components/comelit_vip/viper/session.py:119-132 | a close that tries the RELEASE writes it if and only if the connection is not displaced and can be encoded |
| Video.OnlyALiveLinkIsUsed | custom_components/comelit_vip/viper/call.py:277-280 | over any closes nothing is written unless one of them found the connection alive; as long as its addresses cannot be encoded every close raises |
| Video.UncutCloseFinishes | custom_components/comelit_vip/viper/call.py:273-284 | a close whose awaits all come back ends, if and only if its RELEASE can be encoded or need not be sent |
| Video.CancelledOwnerCannotClose | custom_components/comelit_vip/viper/tasks.py:8-18 | a close whose owner is cancelled before it, or while a given task is being ended, tries its RELEASE if and only if none of the tasks from then on was still running; otherwise it stops there with nothing done |
| Handles.SharedExactlyWhen | custom_components/comelit_vip/viper/call.py:132-136 | a close is going to close a channel of somebody else's if and only if a step put its handle into two hands (the one after the video handle was taken or is 0, or the panel opened a taken one, or a lost one was handed out) and neither let go of it since |
| Handles.CloseTakesFromOthersExactlyWhen | custom_components/comelit_vip/viper/session.py:575-580 | the next channel a close closes is somebody else's exactly then, and its handle is handed out again after that |
| Handles.NextHandleIsTaken | custom_components/comelit_vip/viper/call.py:133-135 | and so it can be for every video handle |
| Video.VideoCall.OnIncomingChannel | custom_components/comelit_vip/viper/call.py:153-159 | an RTPC channel of the panel's is routed to the call and is the one remembered |
| Video.VideoCall.OnMedia | custom_components/comelit_vip/viper/call.py:161-173 | a frame on a video handle that parses is queued, dropping the oldest entry if the queue is full, and its time is kept |
| Video.VideoCall.PollMedia | custom_components/comelit_vip/viper/call.py:210-223 | a poll ends the stream if and only if no video came within 10 seconds of the start, or for 2 seconds since the last frame |
| Video.VideoCall.VideoChannelOpened | custom_components/comelit_vip/viper/call.py:132-136 | the video handle and the one after it, modulo 2^16, are the video handles, and the latter is reserved |
| Video.VideoCall.Packets | custom_components/comelit_vip/viper/call.py:226-232 | the loop yields exactly the packets before the first end, or all there are |
| Video.VideoCall.CleanUp | custom_components/comelit_vip/viper/call.py:249-272 | the local part: handlers gone, connection released if the table still holds it, handles and RELEASE owed, end queued |
| Video.VideoCall.SendTheRelease | custom_components/comelit_vip/viper/call.py:277-284 | what is written first is a packet with flags 0x40 and body 00 0E 00 under the connection's own id, numbers and addresses, or nothing if it cannot be; it is forgotten only when its send has come back; then come the frames that close the channels tried |
| Video.VideoCall.FinishChannels | custom_components/comelit_vip/viper/call.py:281-284 | for each channel tried the frame that closes that handle is written, in order, and a handle is forgotten only when its close has come back |
| Video.VideoCall.Close | custom_components/comelit_vip/viper/call.py:243-284 | a close cleans up if none has before, and then does what `RunClose` says from wherever the last one stopped; on the wire that is its RELEASE, opcode 0x000E with cause 0 as data on its own connection, if one was owed and could be sent, and a closing frame for each handle tried |
| Relay.StepKeeps | custom_components/comelit_vip/viper/rtsp.py:211-321 | every step of requests, viewers, the owner, the pump and the idle watch keeps the relay's invariant |
| Relay.OneCallAtATime | custom_components/comelit_vip/viper/rtsp.py:211-300 | in every run at most one episode has its owner running, and the panel's one line is never asked for two calls at once: each dial finds it free, each frame comes from the call that is up |
| Relay.ClosedBeforeDialling | custom_components/comelit_vip/viper/rtsp.py:251-275 | when the factory is asked for a call, every call it returned before has had its close begun |
| Relay.FramesBearTheirCall | custom_components/comelit_vip/viper/rtsp.py:323-339 | every frame was moved by the pump of a call that was answered and not hung up, and bears the generation of that very answer |
| Relay.NothingOutlivesItsCall | custom_components/comelit_vip/viper/rtsp.py:284-300 | a pump or an idle watch that has not been cancelled belongs to the call that is up, and there is no other |
| Relay.GenerationTellsCallsApart | custom_components/comelit_vip/viper/rtsp.py:266-268 | of two frames the later bears a higher generation if and only if a call was hung up in between, and never a lower one |
| Relay.NoLostWakeUp | custom_components/comelit_vip/viper/rtsp.py:313-318 | outside `stop`, whenever the idle watch waits and no client remains, its event is set |
| Relay.ReturnsAfterGrace | custom_components/comelit_vip/viper/rtsp.py:313-321 | the watch of a call says that the clients are gone if and only if it wakes from a full grace with nobody playing |
| Relay.SilentClientsDoNotCount | custom_components/comelit_vip/viper/rtsp.py:313-321 | which it does in a run with a client connected that has not asked for PLAY |
| Relay.EmptyRelayHangsUp | custom_components/comelit_vip/viper/rtsp.py:284-321 | with everybody gone the call ends one grace later, by nothing but waits coming back |
| RelayRuns.RedialsExactlyWhen | custom_components/comelit_vip/viper/rtsp.py:267-274 | in every run, when the close of a call comes back, its owner dials its own target again if and only if somebody is playing and the idle watch of that very call had not reported the clients gone when the wait for it came back; otherwise the episode is over and nothing is dialled |
| RelayRuns.HangUpIsFollowed | custom_components/comelit_vip/viper/rtsp.py:251-274 | with somebody playing, a call the panel ends is followed, by nothing but waits coming back, by another of the same episode towards the same target, with the viewers still there |
| RelayRuns.DialsWhatWasAsked | custom_components/comelit_vip/viper/rtsp.py:211-228 | in every run nothing is dialled, and no episode is for anything, but what a request asked for |
| RelayViewers.FrameReachesEveryPlayer | custom_components/comelit_vip/viper/rtsp.py:323-339 | every client that plays and can take it gets a packet exactly once, with the generation of the moment, nobody else gets anything, and exactly the players that cannot take it are dropped |
| RelayViewers.PlaysExactlyWhen | custom_components/comelit_vip/viper/rtsp.py:508-518 | in every run a client plays if and only if it asked for PLAY while connected and has since neither left nor failed to take a packet nor been stopped |
| RelayViewers.GraceBeginsExactlyWhen | custom_components/comelit_vip/viper/rtsp.py:313-319 | the grace of a call begins, and is counted, from when its watch starts with nobody connected, or is woken; at no other time |
| RelayViewers.WokenByDeparture | custom_components/comelit_vip/viper/rtsp.py:370-377 | a watch that waits is woken only after somebody went, or failed, while it waited, leaving nobody playing |
| RelayViewers.FailsExactlyWhenFirstRaised | custom_components/comelit_vip/viper/rtsp.py:255-265 | an episode's failure is set if and only if its first dial raised; its owner is done then, and those who asked have been let go |
| Relay.WaitersHangExactlyWhen | custom_components/comelit_vip/viper/rtsp.py:226-228 | the waiters of a finished episode hang for ever if and only if its task was cancelled before its first step |
| Relay.CancelledBeforeItsFirstStep | custom_components/comelit_vip/viper/rtsp.py:241-245 | which an abandoned first request can bring about |
| Relay.FinishedForGood | custom_components/comelit_vip/viper/rtsp.py:234-239 | nothing that happens later touches a finished episode |
| RtspRelay.RtspRelay.EnsureCall | custom_components/comelit_vip/viper/rtsp.py:211-228 | a live episode is joined, or refused towards another entrance; otherwise a new one is made |
| RtspRelay.RtspRelay.Live | custom_components/comelit_vip/viper/rtsp.py:234-239 | the current episode, if its owner has not finished |
| RtspRelay.RtspRelay.BeginDial | custom_components/comelit_vip/viper/rtsp.py:251-254 | the owner asks for a call |
| RtspRelay.RtspRelay.CallAnswered | custom_components/comelit_vip/viper/rtsp.py:263-268 | waiters are let go and the generation moves on by one |
| RtspRelay.RtspRelay.DialFailed | custom_components/comelit_vip/viper/rtsp.py:255-265 | only a first dial that raised leaves a failure, and the episode ends |
| RtspRelay.RtspRelay.StopRelaying | custom_components/comelit_vip/viper/rtsp.py:291-298 | pump and idle watch are both cancelled before either is awaited |
| RtspRelay.RtspRelay.BeginClose | custom_components/comelit_vip/viper/rtsp.py:268-271 | the call is forgotten as its close begins |
| RtspRelay.RtspRelay.BeginFinalClose | custom_components/comelit_vip/viper/rtsp.py:275-279 | the outer `finally` closes a call that was still held |
| RtspRelay.RtspRelay.Finish | custom_components/comelit_vip/viper/rtsp.py:275-282 | whoever waits is let go, and the episode is no longer the current one, unless it had been replaced |
| RtspRelay.RtspRelay.CallClosed | custom_components/comelit_vip/viper/rtsp.py:270-274 | the owner dials its target again if and only if the clients had not been reported gone and some client plays; otherwise it finishes and dials nothing |
| RtspRelay.RtspRelay.Cancelled | custom_components/comelit_vip/viper/rtsp.py:241-282 | what a cancellation does at each await of the owner |
| RtspRelay.RtspRelay.Drop | custom_components/comelit_vip/viper/rtsp.py:370-377 | a client leaves, and the idle event is set if nobody plays any more |
| RtspRelay.RtspRelay.FanOut | custom_components/comelit_vip/viper/rtsp.py:323-339 | every playing client gets the packet with the current generation, and those that fail are dropped |
| RtspRelay.RtspRelay.IdleRound | custom_components/comelit_vip/viper/rtsp.py:313-319 | the event is cleared, and the watch waits for it only if there are clients |
| RtspRelay.RtspRelay.GraceOver | custom_components/comelit_vip/viper/rtsp.py:319-321 | after a grace the watch returns if and only if nobody plays |
| RtspRelay.RtspRelay.OwnerResumes | custom_components/comelit_vip/viper/rtsp.py:246-300 | whichever await of an owner comes back, what follows is a step of the relay's machine, and leaves the relay sound |
| RtspRelay.RtspRelay.Happens | custom_components/comelit_vip/viper/rtsp.py:323-377 | so are a packet and a client that leaves |
| RtspRelay.RtspRelay.WatchResumes | custom_components/comelit_vip/viper/rtsp.py:313-321 | so are the idle watch's start and the end of its grace |
| RtspRelay.RtspRelay.Request | custom_components/comelit_vip/viper/rtsp.py:211-228 | and so is a request |
| RtspRelay.RtspRelay.OnlyTheCurrentRuns | custom_components/comelit_vip/viper/rtsp.py:234-239 | of a sound relay only the current episode can be running, and a pump moves the packets of the call it relays |
| Abandon.CloseStopsExactlyWhen | custom_components/comelit_vip/viper/rtsp.py:268-280 | in every run, for either close of an owner and wherever a cancellation meets it, the RELEASE is tried if and only if no task that was still to end then was running; the outer `finally`'s owner has always been cancelled before |
| Abandon.UntoldCallIsLeftUp | custom_components/comelit_vip/viper/rtsp.py:268-282 | after a close that stopped like that, whichever it was, the owner is done, the next request dials, and no close of that call begins in any continuation |
| Abandon.AbandonedCallIsLeftUp | custom_components/comelit_vip/viper/rtsp.py:241-245 | so an abandoned call with a running task is never released |
| Abandon.ClosingUnasked | custom_components/comelit_vip/viper/rtsp.py:268-271 | an owner gets to the ordinary close without having been cancelled, so that a cancellation can meet it anywhere there |
| ClientRuns.ElapsedIsTimeSeen | custom_components/comelit_vip/viper/rtsp.py:94-101 | over every run of the relay, the client's clock advances by the deltas inside calls and one gap for each pair of successive frames with a call hung up in between |
| ClientRuns.ClientSeesOneStream | custom_components/comelit_vip/viper/rtsp.py:88-112 | so every frame it gets bears that time modulo 2^32, and successive sequence numbers, whatever calls there were |
| Link.StepAgrees | custom_components/comelit_vip/hub.py:180-356 | every step of the supervisor and the session keeps what the last notification has to do with the state |
| Link.ListenersAgree | custom_components/comelit_vip/hub.py:104-112 | in every run, whenever no handshake and no teardown is going on, the last "connection" notification is `available` |
| Link.LossWakesSupervisor | custom_components/comelit_vip/hub.py:205-234 | once the teardown of a lost link is over, a waiting supervisor can wake at once and goes on to reconnect |
| Link.ReplacementIsSilent | custom_components/comelit_vip/hub.py:339-352 | through a planned replacement that meets no failure the hub stays available but for the close itself, and nothing is notified but up |
| Link.ReplacementBeginsSmooth | custom_components/comelit_vip/hub.py:350-352 | and every planned replacement starts like that |
| Link.LeaseIsKept | custom_components/comelit_vip/hub.py:298-352 | with passes of at most D seconds, a served registration is younger than 900+60+2D; and the connection is younger than 3000+60+2D, or was found in use, when due for replacement, by a pass of this run begun within the last 60+2D seconds |
| Link.BusyMeans | custom_components/comelit_vip/hub.py:345-349 | the time kept is that at which such a pass began |
| Link.InsideTheHour | custom_components/comelit_vip/const.py:46-53 | so passes of up to 270 seconds keep both inside the 3600 second lease, unless a pass begun within the last ten minutes found the connection in use |
| Link.BackoffClimbs | custom_components/comelit_vip/hub.py:242-251 | every delay is 5, 15, 30, 60, 120, 300 or 600 seconds by its place since the last reset, the last of these from the seventh on, and delays do not shrink between resets |
| LinkWaits.EveryAttemptWaits | custom_components/comelit_vip/hub.py:242-261 | in every run, each attempt of the supervisor's was owed by a mark of its own, and begins no earlier than the seconds of that delay after it was owed |
| LinkWaits.AttemptInTime | custom_components/comelit_vip/hub.py:253-261 | and need not be later: whenever a wait was owed last and the socket is down, the next attempt can begin within those seconds, which after a planned replacement is with no time passing |
| LinkWaits.EveryAttemptCounts | custom_components/comelit_vip/hub.py:260-296 | there are as many attempts, with the setup's, as outcomes and the one still open |
| Watchdog.ClosedExactlyWhen | custom_components/comelit_vip/hub.py:298-362 | in every run, the watchdog closes a connection it serves if and only if the panel did not answer, giving it up, or a pass that found nothing wrong finds it 3000 seconds old and in nobody's use, replacing it |
| Watchdog.AsksExactlyWhen | custom_components/comelit_vip/hub.py:306-337 | it asks for a renewal if and only if that is 900 seconds old, and for a probe if and only if, after that, the panel has been silent; and it waits 60 seconds in between |
| Watchdog.AfterItsClose | custom_components/comelit_vip/hub.py:339-362 | after the close of a connection given up the listeners were told and an attempt is owed after a delay; after that of one being replaced they were not, and it is owed at once |
| Watchdog.DeadLinkIsNone | custom_components/comelit_vip/hub.py:290-296 | a link that is down again when its handshake comes back is closed, told of, and counts as none |
| Link.AtOnceExactlyAfterRecycle | custom_components/comelit_vip/hub.py:244-247 | an attempt is made at once, resetting the backoff, if and only if a connection was closed for its age and nothing was lost or dropped and no attempt made since; that connection had been up for its maximum age |
| Link.ResetExactlyWhenItLasted | custom_components/comelit_vip/hub.py:197-205 | the end of a connection resets the backoff if and only if 120 seconds have passed since the connect that brought it up |
| Link.LastedOnlyAfterItsEnd | custom_components/comelit_vip/hub.py:197-205 | and nothing else does: each such reset follows the loss, the drop or the replacement of a connection |
| LinkHistory.ReplacingMeans | custom_components/comelit_vip/hub.py:339-352 | a replacement is under way exactly if the history holds a recycle with nothing lost, dropped or attempted at once after it |
| LinkHistory.SinceMeans | custom_components/comelit_vip/hub.py:199-205 | a connection has been up since a time exactly if the history holds a completed connect then with no end after it |
| Link.ReauthExactlyAtThird | custom_components/comelit_vip/hub.py:262-285 | the supervisor gives up and asks for a new token if and only if three refusals followed the last completed connect |
| Link.NoAttemptAfterGivingUp | custom_components/comelit_vip/hub.py:282-285 | and makes no attempt after that |
| Hub.ComelitVipHub.LowerLink | custom_components/comelit_vip/hub.py:187-207 | the one transition to a down link |
| Hub.ComelitVipHub.EndLifetime | custom_components/comelit_vip/hub.py:197-205 | a connection that lasted starts the backoff over, a short one keeps it |
| Hub.ComelitVipHub.OnDisconnect | custom_components/comelit_vip/hub.py:179-185 | a connection that died on its own lowers the link, unless the hub is stopping |
| Hub.ComelitVipHub.ReportDown | custom_components/comelit_vip/hub.py:209-214 | a replacement that failed is reported down once |
| Hub.ComelitVipHub.RaiseLink | custom_components/comelit_vip/hub.py:242-255 | the backoff owed is taken, and advanced before the first await |
| Hub.ComelitVipHub.CallAbandoned | custom_components/comelit_vip/hub.py:253-257 | once the relay has let its call go, the delay owed is slept out, if there is one |
| Hub.ComelitVipHub.BeginConnect | custom_components/comelit_vip/hub.py:258-261 | and then the attempt begins, unless the hub is stopping |
| Hub.ComelitVipHub.Supervise | custom_components/comelit_vip/hub.py:216-234 | the top of the loop: stop, watch for an interval, or raise the link |
| Hub.ComelitVipHub.ConnectFailed | custom_components/comelit_vip/hub.py:262-289 | a refusal counts towards reauthentication, another failure does not, and either reports a failed replacement |
| Hub.ComelitVipHub.HandshakeDone | custom_components/comelit_vip/hub.py:165-171 | a completed connect clears the failures and the replacement and notifies `available` |
| Hub.ComelitVipHub.ConnectReturned | custom_components/comelit_vip/hub.py:290-296 | a link that died during its handshake is closed |
| Hub.ComelitVipHub.Close | custom_components/comelit_vip/hub.py:358-362 | closing a session that is already down, or going down, comes back at once |
| Hub.ComelitVipHub.CloseReturned | custom_components/comelit_vip/hub.py:350-362 | what follows a close: down and reported, or down and quiet, or a failed or dead attempt |
| Hub.ComelitVipHub.WatchdogPass | custom_components/comelit_vip/hub.py:298-325 | a pass drops an unregistered connection, renews an old registration, probes a silent panel, and goes on to recycling |
| Hub.ComelitVipHub.RenewalReturned | custom_components/comelit_vip/hub.py:318-325 | a renewal that failed drops the connection |
| Hub.ComelitVipHub.RecycleIfStale | custom_components/comelit_vip/hub.py:339-352 | an old connection is replaced unless a call is up or somebody watches, by the time read when the pass began |
| Hub.ComelitVipHub.Resumes | custom_components/comelit_vip/hub.py:216-362 | whichever await of the supervisor comes back, what follows is a step of the link's machine, and leaves the hub sound |
| Hub.ComelitVipHub.TheyWereTold | custom_components/comelit_vip/hub.py:104-112 | of a sound hub that is settled, `available` is what the entities were last told |
| Hub.ComelitVipHub.OnRing | custom_components/comelit_vip/hub.py:383-419 | every ring is notified with its kind; an entrance call, by its tag or else by the book, has its time remembered, and owes captures towards its origin if pictures or clips are wanted; nothing else does |
| Hub.ComelitVipHub.OnCallEnd | custom_components/comelit_vip/hub.py:421-439 | every end is notified with its cause; an owed entry is taken out, and starts what is wanted at that moment |
| Captures.HubHearsAll | custom_components/comelit_vip/viper/session.py:507-519 | the hub hears the session's reports, all and in order |
| Captures.CapturesFollowTheirRing | custom_components/comelit_vip/hub.py:383-439 | with session and hub side by side in one TCP lifetime, every capture was promised by the ring of the very call whose end started it, points at that ring's origin and is the only one of its kind, and owed entries are of open entrance rings |
| Captures.OwedExactlyWhen | custom_components/comelit_vip/hub.py:404-419 | for every list of events in which a call rings, it is owed captures afterwards if and only if that ring was an entrance's, by its tag or else by the book, and pictures or clips were wanted at that moment |
| Captures.EndFiresExactlyWhen | custom_components/comelit_vip/hub.py:433-439 | an end starts a picture if and only if pictures are wanted by then, and a clip if and only if clips are, towards the origin of its own ring if that owed them, or else towards an entry from an earlier TCP lifetime left on its id; with neither it starts nothing |
| Captures.StaleEntryMisfires | custom_components/comelit_vip/hub.py:433-439 | such an entry is reached: any payload of an entrance call whose reader is cancelled leaves one, and a floor call on its id in the next lifetime starts a picture of that entrance |
| Captures.SuchInvitesExist | custom_components/comelit_vip/viper/ctp.py:146-163 | and there are packets of both kinds on one id |

## Left out

- BeginOpen: the request that opens a channel is not kept on `wire`, nor is the JSON that `BeginRequest` sends; `Wire.OpenBytes` says what the former is.
- DispatchPacket: claims nothing about what is written; `HandleIncoming` and `AcceptInbound`, which it calls, do.
- The address book does not change while captures are owed: it is read once, before the events that `Captures` speaks of.
- asyncio itself: its contract is taken as given. Steps are atomic, a cancellation arrives at an await, and a task cancelled before its first step runs nothing of its body.
- Sockets, `StreamReader` buffering, logging and callbacks that raise: bytes are sequences, a send may fail in any way.
- JSON: requests and answers are their handle and message id; `int()` of a malformed message id, which the reader logs and survives, is not modelled.
- Randomness: first sequence numbers, call ids and connection ids are arguments. That some connection id is free is assumed of `_new_connection`, whose loop ends only with probability one.
- The callbacks' own objects: what `on_ring` and `on_call_end` are told is a trace, with the number of the connection in place of object identity and without the time of reception.
- Home Assistant's side (`__init__.py`, `button.py`, `camera.py`, `event.py`, `entity.py`, `config_flow.py`, `diagnostics.py`), `web.py` and `discovery.py`: framework glue, HTTP and UDP.
- ffmpeg, files and clip names (`hub.py` 495-622): operating system calls.
- SDP, RTSP header parsing, admission of remote clients and `models.py`: they would only add easy members. Whether an address is an entrance is a set of addresses.
- Registration's own wait for its answer: how it comes back is an argument. A connection that a cancellation leaves filed is an outgoing connection whose owner has gone, which the model's schedules include.
- Exceptions other than `ViperError` and `OSError` out of a handshake, a renewal or a probe: `Link` leaves them out, and a reconnect that would overlap a teardown still in flight.
- Time in `Link` does not pass a deadline while the supervisor is ready to run: an event loop that lags adds its lag to the bounds. The relay's start between the first connect and the supervisor's first step takes no time.
- Relay clients are numbers with a playing flag in `Relay`; what a frame looks like to a client is `RelayClient`. The order in which a packet goes round the clients is an argument.
- Calls that `open` a video call twice, or use it again after its close, which nothing in the repository does.
- OpenChannel: takes the two halves of opening a channel with nothing in between; what others do meanwhile is not undone by it, and `BeginOpen` and `FinishOpen` say what each half does in any state.
- BeginRequest: a write that fails leaves the waiter behind until the teardown, as in the source; nothing is claimed about when it goes.
- Close: the conditions on the call's objects say that its session's bookkeeping is intact; a handle that collides with another channel's is closed like the source closes it, and `WaitersOk` is not promised afterwards; `Handles` says exactly when that happens, within one TCP lifetime.
- Packets: yields as far as it gets without waiting; an iteration that waits goes on from the state the other methods leave.
- OnRing: the entrance's name from the address book and the text form of time, tag and body are not modelled; nor is the bus event that repeats the notification, for OnCallEnd likewise.
- FanOut: a client's own write failing is an argument, and the clocks of the clients are not part of the relay's value.
