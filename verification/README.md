# Verified models of an OpenSSH server and client

This project models the parts of OpenSSH where state, buffers and arithmetic are hardest to get
right, and proves what they are for. `dafny verify dfyconfig.toml` checks all of it.

**Channels** (`ChannelModel`, `ChannelProtocol`, `ChannelSteps`, `ChannelReceive`,
`ChannelTheorems`, `ChannelLiveness`, `ChannelEndings`, `ChannelStalls`, `ChannelLosses`,
`ChannelObject`, `ChannelRun`). Two endpoints of one stream channel run the same code, joined by a
first-in first-out link in each direction (sections 5.1 to 5.3 of RFC 4254). A run is any schedule of
their handlers: reading, writing, stderr, window check, sending, receiving, activation,
half-close and close. Windows are 32-bit and may wrap. One inductive invariant covers window
credit, buffer accounting, byte streams and the order of packets. A measure shows that every run
settles. Stderr that a receiver refuses and output that it drops are never granted again; so
towards an open receiver of non-empty packets a settled run can take more exactly if the
receiver's window exceeds what it refused; otherwise it is stuck for good, and the closing
handshake completes under the same condition. The functions of `ChannelModel` say what becomes of
each field. The class has the handlers with the program's own branches, updating fields in place;
`ChannelRun` proves each equal to its function and runs whole schedules on two such objects.

**Mux proxy** (`MuxModel`, `MuxTheorems`, `MuxPackets`, `MuxObject`). Any number of clients share a connection;
their channel ids are translated through one growable table.

**SOCKS** (`SocksModel`, `SocksTheorems`, `SocksStreams`, `SocksObject`). The incremental parser
of a dynamic forwarding (sections 3 and 4 of RFC 1928), on requests and on arbitrary bytes.

**Authentication** (`AuthLists`, `AuthSession`, `AuthTheorems`, `AuthObject`). Comma-separated
method lists are cut from the front as methods succeed (section 5.1 of RFC 4252), from the
configuration check to the last request of a session.

**Algorithms.** The growable bitmap against a set of numbers (`Bits`, `BitmapModel`,
`BitmapObject`); address arithmetic against numbers and intervals (`CidrMath`, `Cidr`);
ChaCha20 and chacha20-poly1305 (`ChaCha`, `ChaChaObject`, `ChachaPoly`, `ChachaPolyObject`);
cipher block chaining in place (`Cbc`); the choice of a Diffie-Hellman group (`Dh`); key options
on the wire (`Wire`, `KeyOptions`, `KeyOptionsObject`); scatter/gather transfers (`Atomicio`);
the escape filter (`Escape`). `Slices` and `Bytes` hold what they share.

Descriptors, the random choice, `fork`, the progress callback and the results of authentication
methods are parameters: every theorem holds for all their answers. Where a promise one might
expect is false of the code, the code is modelled as it is, a lemma names the case, and another
gives the exact condition: `ChannelTheorems.ActivationNeedsEmptyWindow`,
`ChannelLosses.LeakIsForEver` beside `ChannelLiveness.NoDeadlock`,
`ChannelEndings.HandshakeCompletes`, `SocksTheorems.SplitExactly`,
`SocksStreams.ChunkingMatters`, `AuthTheorems.RequestNeverBreaks`, `BitmapModel.ReadAfterWrite`,
`Dh.SmallestExactly`, `KeyOptions.SurvivesExactly`, `Atomicio.Atomiciov`, `Escape.Split`.

## Model

| member | source | states |
|---|---|---|
| `ChannelTheorems.WindowSafety` | src/channels.c:3037-3140 | On every run of two endpoints, in either direction, the sender's `remote_window`, the data and adjustments in flight and the stderr bytes refused so far add up to exactly the receiver's `local_window`, and no fault exit ("peer ignored channel window", "adjust overflows", unknown channel, and the others) is ever reached |
| `ChannelTheorems.MemoryBound` | src/channels.c:2443-2468 | On every run, `local_window + local_consumed`, the buffered bytes and those that a failed write dropped add up to exactly `local_window_max`, and neither the subtraction nor the sum in the window check wraps in 32 bits |
| `ChannelTheorems.StreamIntegrity` | src/channels.c:2191-2393 | On every run, the bytes read at one end are, in order, those written at the other, then its buffer, the payloads in flight and the sender's buffer; likewise for stderr; after a failed write what was written is still a prefix |
| `ChannelTheorems.GracefulClose` | src/nchan.c:127-167 | If an output half is closed and no write failed there, the peer's input half is closed and everything the peer ever read has been written |
| `ChannelTheorems.ClosedMeansDelivered` | src/nchan.c:255-265 | The same for any pair of endpoints that satisfies the invariant |
| `ChannelTheorems.FreedIsDone` | src/channels.c:2660-2679 | A freed channel has nothing left to receive and CLOSE has been sent in both directions |
| `ChannelTheorems.Reachable` | src/channels.c:2191-2468 | The protocol invariant holds after any schedule of steps from an opened channel |
| `ChannelTheorems.StepKeeps` | src/channels.c:3490-3774 | Every step of either endpoint keeps the invariant |
| `ChannelTheorems.LocalKeeps` | src/channels.c:2191-2468 | Every handler that takes no packet keeps the invariant |
| `ChannelTheorems.ReceiveKeeps` | src/channels.c:3490-3774 | Handling the packet at the head of a link keeps the invariant, whatever packet it is |
| `ChannelTheorems.StartInv` | src/channels.c:1167-1178 | The invariant holds once one side has sent its open message and the other its confirmation |
| `ChannelTheorems.ActivationNeedsEmptyWindow` | src/channels.c:1294-1315 | Granting a whole new window to a larval channel keeps the peer's credit covered if and only if the larval window was zero |
| `ChannelTheorems.WindowOfOneStalls` | src/channels.c:2443-2468 | With a one-byte window that has been used up, the window check does nothing exactly when the packet size is not zero |
| `ChannelLiveness.NoDeadlock` | src/channels.c:2443-2468 | On any run, in either direction and for every receiver, when no step carries bytes further an open sender has exactly the receiver's `local_window` less the stderr that was refused; if that is positive and packets are not empty, everything read has come out unless it was lost at the receiver, and the next byte offered is taken; if it is zero, its descriptors are not read any more; it is positive while less than half of the window has leaked, and at least half of `local_window_max` if nothing was lost |
| `ChannelLosses.LeakIsForEver` | src/channels.c:3561-3611 | The other half: a run stuck with an open receiver whose remaining window equals what it refused never carries another byte in that direction, whatever either side does next |
| `ChannelLosses.StderrLeaksWindow` | src/channels.c:3590-3595 | Such a run exists for every window up to the packet size: one window's worth of stderr sent to a receiver that ignores it leaves both ends open and idle, with nothing written, and stuck for good |
| `ChannelLosses.StderrBlocksHandshake` | src/channels.c:3590-3595 | Continued until nothing changes, that run has one side's output and the other's input closed and frees neither channel |
| `ChannelLosses.ExhaustedStep` | src/channels.c:2191-3774 | Every step of either side keeps a receiver exhausted and moves no byte towards it |
| `ChannelLiveness.Settles` | src/channels.c:2191-2468 | From any reachable state, steps of any one kind that bring in no bytes can be taken until none of that kind is left |
| `ChannelEndings.HandshakeCompletes` | src/nchan.c:111-371 | On any run, once reading has ended and nothing more can be done, both channels are freed if and only if each side's input half has ended or had window left to end with (and nothing barred by an empty packet size); then everything has arrived unless it was lost; so it is whenever both receivers are usable |
| `ChannelEndings.ComesToRest` | src/nchan.c:111-371 | Such a state can be reached from every point of every run |
| `ChannelEndings.ReachedEnds` | src/nchan.c:127-146 | On any run an input half has ended only by EOF, by the peer's CLOSE or by the peer's failed write |
| `ChannelEndings.InputEnds` | src/nchan.c:127-146 | A side at rest that can end its input half has ended it |
| `ChannelEndings.OutputEnds` | src/nchan.c:255-265 | Its peer at rest has then closed its output half |
| `ChannelEndings.BothFreed` | src/channels.c:2660-2679 | With all four halves closed at rest, CLOSE has passed both ways and both channels are freed |
| `ChannelStalls.SmallWindowCarriesNoMore` | src/channels.c:2443-2468 | On any run, towards a receiver whose configured window is below two bytes or whose packets must be empty, at most that window, and no more than one byte, ever comes out |
| `ChannelStalls.OneByteThenStuck` | src/channels.c:2443-2468 | A run with a window of one byte that delivers it and is then stuck, with the sender open and its window zero |
| `ChannelStalls.NeverGrants` | src/channels.c:2443-2468 | A window of at most one byte is never granted again |
| `ChannelRun.Run` | src/channels.c:2191-3774 | Any schedule run on two channel objects in place ends in the state the schedule determines, and the objects' own fields then satisfy window safety, the memory bound, the stream equation and graceful close, both ways |
| `ChannelRun.TakeStep` | src/channels.c:2191-3774 | One step of either object is one step of the protocol |
| `ChannelRun.Deliver` | src/channels.c:3490-3774 | A packet handed to an object takes it to the state its handler specifies, or to the fatal exit if the channel is gone |
| `ChannelRun.LocalStep` | src/channels.c:2191-2468 | A handler without a packet takes an object to the state it specifies |
| `ChannelLiveness.WorkRunsOut` | src/channels.c:2191-2468 | From any reachable state the number of effective steps that bring in no new bytes is bounded by a measure of that state |
| `ChannelLiveness.StepWorks` | src/channels.c:2191-2468 | Every internal step that changes the state strictly lowers the measure |
| `ChannelLiveness.LocalWorks` | src/channels.c:2276-2468 | The same for the handlers that take no packet |
| `ChannelLiveness.ReceiveWorks` | src/channels.c:3490-3774 | The same for every received packet |
| `ChannelLiveness.WindowReopens` | src/channels.c:2443-2468 | With links and output buffer empty, after the window check and the delivery of its adjustment the sender has the receiver's whole window less what was refused, and that window is at least half of `local_window_max`, or all of it but what was dropped or cannot be written |
| `ChannelLiveness.StillTalking` | src/nchan.c:268-305 | With empty links, while one side may still send neither side has begun to close |
| `ChannelLiveness.Delivered` | src/channels.c:3037-3140 | With empty links and no step left on either side, where the sender's window stands, and that everything read has arrived unless it was lost, for every receiver that leaves window |
| `ChannelSteps.ReadKeeps` | src/channels.c:2191-2273 | Reading from the descriptor keeps the invariant |
| `ChannelSteps.WriteKeeps` | src/channels.c:2276-2364 | Writing to the descriptor, fully, partly or in failure, keeps the invariant |
| `ChannelSteps.ErrWriteKeeps` | src/channels.c:2367-2393 | Writing stderr keeps the invariant |
| `ChannelSteps.ErrReadKeeps` | src/channels.c:2396-2423 | Reading stderr keeps the invariant |
| `ChannelSteps.CheckWindowKeeps` | src/channels.c:2443-2468 | The window check keeps the invariant |
| `ChannelSteps.PreOpenKeeps` | src/channels.c:1331-1365 | Finishing a drained output half keeps the invariant |
| `ChannelSteps.PollInputKeeps` | src/channels.c:3037-3104 | Sending data, or EOF after the last of it, keeps the invariant |
| `ChannelSteps.PollExtendedKeeps` | src/channels.c:3111-3140 | Sending stderr data keeps the invariant |
| `ChannelSteps.ActivateKeeps` | src/channels.c:1294-1315 | Activating a larval session keeps the invariant |
| `ChannelSteps.CollectKeeps` | src/channels.c:2660-2679 | Sending CLOSE and freeing the channel keep the invariant |
| `ChannelReceive.ConfirmKeeps` | src/channels.c:3655-3691 | The open confirmation keeps the invariant |
| `ChannelReceive.DataKeeps` | src/channels.c:3490-3558 | Received data, stored or discarded, keeps the invariant |
| `ChannelReceive.ExtDataKeeps` | src/channels.c:3561-3611 | Received stderr, stored or refused, keeps the invariant |
| `ChannelReceive.AdjustKeeps` | src/channels.c:3747-3774 | A window adjustment keeps the invariant |
| `ChannelReceive.EofKeeps` | src/channels.c:3614-3636 | A received EOF keeps the invariant |
| `ChannelReceive.EowKeeps` | src/nchan.c:170-179 | A received end-of-write message keeps the invariant |
| `ChannelReceive.CloseKeeps` | src/nchan.c:268-305 | A received CLOSE keeps the invariant |
| `ChannelReceive.ArrivesAlive` | src/channels.c:245-259 | No packet reaches a freed channel, and an opening channel receives the confirmation and nothing else |
| `ChannelReceive.PeerClosed` | src/nchan.c:255-265 | A side whose output closed without a failed write has a peer whose input is closed |
| `ChannelProtocol.SilentAfterEof` | src/nchan.c:182-202 | Once EOF has been heard, what is still on the link carries no data |
| `ChannelObject.Channel.ChanReadFailed` | src/nchan.c:111-124 | In place, the specified value of every field it may change: an open input half starts draining |
| `ChannelObject.Channel.ChanIbufEmpty` | src/nchan.c:127-146 | In place, the specified value of every field it may change: a drained input half sends EOF unless CLOSE was sent, and closes |
| `ChannelObject.Channel.ChanObufEmpty` | src/nchan.c:149-167 | In place, the specified value of every field it may change: a drained output half closes |
| `ChannelObject.Channel.ChanWriteFailed` | src/nchan.c:308-324 | In place, the specified value of every field it may change: the output half closes, its buffer is dropped, and a session tells the peer |
| `ChannelObject.Channel.ChanRcvdIeof` | src/nchan.c:255-265 | In place, the specified value of every field it may change: EOF is recorded and the output half drains, or closes if it is empty |
| `ChannelObject.Channel.ChanShutdownExtendedRead` | src/nchan.c:428-443 | In place, the specified value of every field it may change: the stderr descriptor that is read from is closed |
| `ChannelObject.Channel.ChanRcvdOclose` | src/nchan.c:268-305 | In place, the specified value of every field it may change: CLOSE ends the input half, with an EOF if it was draining, and lets the output drain |
| `ChannelObject.Channel.ChanRcvdEow` | src/nchan.c:170-179 | In place, the specified value of every field it may change: an open input half closes |
| `ChannelObject.Channel.ChannelHandleRfd` | src/channels.c:2191-2273 | In place, the specified value of every field it may change: input is read within the peer's window and the buffer limit |
| `ChannelObject.Channel.ChannelHandleWfd` | src/channels.c:2276-2364 | In place, the specified value of every field it may change: written bytes leave the buffer and count as consumed |
| `ChannelObject.Channel.ChannelHandleEfdWrite` | src/channels.c:2367-2393 | In place, the specified value of every field it may change: the same for stderr |
| `ChannelObject.Channel.ChannelHandleEfdRead` | src/channels.c:2396-2423 | In place, the specified value of every field it may change: stderr is read while the window allows |
| `ChannelObject.Channel.ChannelCheckWindow` | src/channels.c:2443-2468 | In place, the specified value of every field it may change: consumed bytes are granted again when the window is low |
| `ChannelObject.Channel.ChannelPreOpen` | src/channels.c:1331-1365 | In place, the specified value of every field it may change: a drained output half is finished |
| `ChannelObject.Channel.ChannelOutputPollInputOpen` | src/channels.c:3037-3104 | In place, the specified value of every field it may change: one data packet within window and packet size, or EOF at the end |
| `ChannelObject.Channel.ChannelOutputPollExtendedRead` | src/channels.c:3111-3140 | In place, the specified value of every field it may change: one stderr packet within window and packet size |
| `ChannelObject.Channel.ChannelSetFds` | src/channels.c:1294-1315 | In place, the specified value of every field it may change: a larval session becomes open with a new window |
| `ChannelObject.Channel.ChannelGarbageCollect` | src/channels.c:2660-2679 | In place, the specified value of every field it may change: CLOSE when both halves are closed, freed when CLOSE has passed both ways |
| `ChannelObject.Channel.ChannelInputData` | src/channels.c:3490-3558 | In place, the specified value of every field it may change: the window is charged and the data stored, faked as consumed, ignored, or answered with a disconnect |
| `ChannelObject.Channel.ChannelInputExtendedData` | src/channels.c:3561-3611 | In place, the specified value of every field it may change: stderr is stored, refused, or a protocol error |
| `ChannelObject.Channel.ChannelInputIeof` | src/channels.c:3614-3636 | In place, the specified value of every field it may change: EOF, with forced draining of the input |
| `ChannelObject.Channel.ChannelInputOpenConfirmation` | src/channels.c:3655-3691 | In place, the specified value of every field it may change: an opening channel learns its peer's window and packet size |
| `ChannelObject.Channel.ChannelInputWindowAdjust` | src/channels.c:3747-3774 | In place, the specified value of every field it may change: the window grows, with overflow as a fatal exit |
| `ChannelRun.Read` | src/channels.c:2191-2273 | The whole object, all fields included, goes to the value of the handler's function |
| `ChannelRun.Write` | src/channels.c:2276-2364 | The whole object, all fields included, goes to the value of the handler's function |
| `ChannelRun.ErrWrite` | src/channels.c:2367-2393 | The whole object, all fields included, goes to the value of the handler's function |
| `ChannelRun.ErrRead` | src/channels.c:2396-2423 | The whole object, all fields included, goes to the value of the handler's function |
| `ChannelRun.Check` | src/channels.c:2443-2468 | The whole object, all fields included, goes to the value of the handler's function |
| `ChannelRun.Finish` | src/channels.c:1331-1365 | The whole object, all fields included, goes to the value of the handler's function |
| `ChannelRun.SendInput` | src/channels.c:3037-3104 | The whole object, all fields included, goes to the value of the handler's function |
| `ChannelRun.SendExtended` | src/channels.c:3111-3140 | The whole object, all fields included, goes to the value of the handler's function |
| `ChannelRun.GarbageCollect` | src/channels.c:2660-2679 | The whole object, all fields included, goes to the value of the handler's function |
| `ChannelRun.SetFds` | src/channels.c:1294-1315 | The whole object, all fields included, goes to the value of the handler's function |
| `ChannelRun.TakeConfirm` | src/channels.c:3655-3691 | The whole object, all fields included, goes to the value of the handler's function |
| `ChannelRun.TakeData` | src/channels.c:3490-3558 | The whole object, all fields included, goes to the value of the handler's function |
| `ChannelRun.TakeExtended` | src/channels.c:3561-3611 | The whole object, all fields included, goes to the value of the handler's function |
| `ChannelRun.TakeAdjust` | src/channels.c:3747-3774 | The whole object, all fields included, goes to the value of the handler's function |
| `ChannelRun.TakeEof` | src/channels.c:3614-3636 | The whole object, all fields included, goes to the value of the handler's function |
| `ChannelRun.TakeEow` | src/nchan.c:170-179 | The whole object, all fields included, goes to the value of the handler's function |
| `ChannelRun.TakeClose` | src/nchan.c:268-305 | The whole object, all fields included, goes to the value of the handler's function |
| `ChannelObject.Channel.EndInput` | src/nchan.c:292-304 | The input half ends, with an EOF if it was draining, and the stderr descriptor that is read from is closed unless the channel is larval |
| `MuxTheorems.Routing` | src/channels.c:3378-3453 | For any interleaving of mux clients, a server packet is delivered exactly if the record says that the slot it names is some client's, to that client alone and under that client's own id |
| `MuxTheorems.OpeningIsExclusive` | src/channels.c:3225-3369 | CHANNEL_OPEN and OPEN_CONFIRMATION alike go to the server with a slot nobody held, which is then the sending client's under its own id; all other slots keep their owners |
| `MuxTheorems.OwnersAgreeAlways` | src/channels.c:3225-3453 | On every run the table's owners are the ones in the record of openings, frees and departures (which the two lemmas on openers tie to the packets) |
| `MuxPackets.RoutedToOpener` | src/channels.c:3225-3453 | For any history before and after: the server gets a client's opening with some slot in place of the client's id, and every server packet for that slot then goes to that client alone under its own id, until the client leaves or CLOSE has passed both ways |
| `MuxPackets.RoutedOnlyToOpener` | src/channels.c:3378-3453 | Whatever is delivered goes to a client that sent an opening which took that slot and that has not left since |
| `MuxPackets.FreedExactly` | src/channels.c:3335-3450 | Said of packets alone, given unique live server ids: after an opening the slot is given back if and only if the server's CLOSE for it and a client's CLOSE naming the id the server then had for it have both passed; until then it is the opener's and its packets go there; from then on they go to nobody |
| `MuxPackets.RunSettles` | src/channels.c:3225-3453 | Until then the slot remembers exactly the owner, the server's latest id and which of the two CLOSEs has passed |
| `MuxPackets.Forwarding` | src/channels.c:3225-3369 | Every client packet reaches the server exactly once, unchanged but for the id of an opening; CLOSE and all others are untouched |
| `MuxPackets.NothingElseForwarded` | src/channels.c:3225-3369 | Nothing else is sent to the server |
| `MuxTheorems.CloseDiscipline` | src/channels.c:3335-3345 | Given unique live server ids, every slot agrees with the record kept of it, which has a slot freed by a packet only after CLOSE entries of both directions |
| `MuxTheorems.TableBounded` | src/channels.c:508-565 | On every run the table stays within ten slots of the limit |
| `MuxTheorems.OpenFailureKeepsSlot` | src/channels.c:3436-3450 | A refused opening never frees the proxy channel |
| `MuxTheorems.DetachEffect` | src/channels.c:765-828 | A departing client gives up exactly the slots it owned |
| `MuxModel.FirstFree` | src/channels.c:508-540 | The first unused slot, or the one after the last |
| `MuxModel.ByRemote` | src/channels.c:262-273 | The first slot with that server id, or none if there is none |
| `MuxObject.Channels.ChannelNew` | src/channels.c:508-565 | The new channel is in the first free slot, after growth if needed; a full table is fatal |
| `MuxObject.Channels.ChannelByRemoteId` | src/channels.c:262-273 | The search loop finds the first channel with that server id |
| `MuxObject.Channels.NoteClose` | src/channels.c:3335-3345 | The client's CLOSE frees the channel if the server's has passed, and is noted otherwise |
| `MuxObject.Channels.ProxyDownstream` | src/channels.c:3225-3369 | Ids in a client's packets are replaced and the packet forwarded |
| `MuxObject.Channels.ProxyUpstream` | src/channels.c:3378-3453 | Ids in the server's packets are put back and the packet delivered |
| `MuxObject.Channels.DetachClient` | src/channels.c:765-828 | The loop over the table detaches every proxy of the client |
| `SocksTheorems.ChunkingIsIrrelevant` | src/channels.c:1798-1842 | However a well-formed SOCKS4, SOCKS4A or SOCKS5 request and what follows it is split across reads, the same host, port, replies and untouched trailing bytes result, and before that nothing of an incomplete message is consumed |
| `SocksTheorems.SplitExactly` | src/channels.c:1532-1605 | A request that is accepted when read at once is accepted under every split if and only if its strings stay below the limit |
| `SocksTheorems.AcceptedAtOnce` | src/channels.c:1798-1842 | Read at once, every acceptable request is accepted, strings of the maximal length included, with the exact state that results |
| `SocksTheorems.UnluckySplit` | src/channels.c:1532-1605 | A string of the maximal length is refused when a read ends just before its terminator |
| `SocksStreams.ChunkingMatters` | src/channels.c:1798-1842 | For any bytes whatever: at every point of the stream the state is the same under every split, if and only if the stream has no terminated SOCKS4 string of exactly the limit and no acceptable SOCKS5 greeting followed by a byte other than five |
| `SocksStreams.OneMore` | src/channels.c:1798-1842 | For any stream without these, reading more bytes later gives the state of reading all of them at once |
| `SocksStreams.MixedCut` | src/channels.c:1679-1686 | A byte of another version after a greeting waits when it is read apart and is the fatal exit when it is read together |
| `SocksTheorems.Complete4` | src/channels.c:1532-1605 | A complete SOCKS4 or SOCKS4A message is recognised, whatever follows it |
| `SocksTheorems.Partial4` | src/channels.c:1532-1605 | A proper prefix of one asks for more |
| `SocksTheorems.CompleteAuth` | src/channels.c:1622-1658 | A complete SOCKS5 greeting is recognised, whatever follows it |
| `SocksTheorems.PartialAuth` | src/channels.c:1622-1658 | A proper prefix of one asks for more |
| `SocksTheorems.CompleteRequest` | src/channels.c:1661-1769 | A complete SOCKS5 request yields its host and port, whatever follows it |
| `SocksTheorems.PartialRequest` | src/channels.c:1661-1769 | A proper prefix of one asks for more |
| `SocksTheorems.StringComplete` | src/sshbuf-getput-basic.c:649-684 | A terminated string of up to the limit is taken, whatever follows it |
| `SocksTheorems.StringIncomplete` | src/sshbuf-getput-basic.c:649-684 | A proper prefix of a string below the limit asks for more |
| `SocksTheorems.FullStringAlone` | src/sshbuf-getput-basic.c:649-684 | A string of exactly the limit without its terminator is refused |
| `SocksObject.DynamicChannel.DecodeSocks4` | src/channels.c:1532-1605 | In place, the whole state and the result code are those of the value-level parser: the SOCKS4 decoder |
| `SocksObject.DynamicChannel.Socks5CheckAuth` | src/channels.c:1622-1658 | In place, the whole state and the result code are those of the value-level parser: the SOCKS5 greeting |
| `SocksObject.DynamicChannel.DecodeRequest` | src/channels.c:1679-1769 | In place, the whole state and the result code are those of the value-level parser: the SOCKS5 request |
| `SocksObject.DynamicChannel.DecodeSocks5` | src/channels.c:1661-1769 | In place, the whole state and the result code are those of the value-level parser: greeting, then request |
| `SocksObject.DynamicChannel.PreDynamic` | src/channels.c:1798-1842 | In place, the whole state and the result code are those of the value-level parser: the whole dispatch on the first byte |
| `AuthTheorems.AuthenticationRun` | src/auth2.c:370-476 | On every run, authentication is complete exactly when some configured list is an in-order subsequence of the successes so far, no earlier point had that, until then each list string parses to the configured list without its greedily matched front, and event by event the successes grow by exactly what `Credit` gives the event: the resolved method of an accepted request, or keyboard-interactive with its device for an accepted answer, if it completes a first item |
| `AuthObject.ConfiguredRun` | src/auth2.c:576-612 | All clauses of AuthenticationRun from the configuration file on, for the lists that survive its check and the built-in method table |
| `AuthTheorems.RunKeeps` | src/auth2.c:278-367 | The session invariant holds after any sequence of requests and answers; questions are open only for a device whose success would complete a first item |
| `AuthTheorems.AdvanceIsGreedy` | src/auth2.c:673-695 | One success cuts every list string exactly as the greedy matching cuts the parsed list |
| `AuthTheorems.PartialProgress` | src/auth2.c:673-695 | Every partial success strictly shortens the remaining lists |
| `AuthTheorems.BrokenWhen` | src/auth2.c:673-695 | The fatal exit is taken if and only if no remaining list begins with an item the success completes |
| `AuthTheorems.RequestNeverBreaks` | src/auth2.c:673-695 | On every run, an accepted request for an offered method ends in that exit if and only if every first item of that name asks for a submethod, and is credited otherwise; over lists without submethods it never does |
| `AuthTheorems.ResponseNeverBreaks` | src/auth2-chall.c:294-368 | On every run, whatever the lists ask for, an accepted answer to an open keyboard-interactive exchange is credited and never ends in that exit |
| `AuthTheorems.OpenExchange` | src/auth2-chall.c:213-254 | Questions are open only if the latest request was for keyboard-interactive, and for a device that it or an answer since has named |
| `AuthTheorems.StepKeeps` | src/auth2.c:278-476 | One event keeps the session invariant and adds exactly its credit to the successes |
| `AuthTheorems.OneLogin` | src/auth2.c:332-337 | On every run a request that is reached and not refused is for the same user and service as every request before it |
| `AuthTheorems.SubmethodNeverGiven` | src/auth2.c:615-639 | A list that asks for a submethod is offered, yet a success without one completes nothing and ends in the fatal exit |
| `AuthSession.GreedyDecides` | src/auth2.c:673-695 | Cutting from the front finishes a list if and only if the list is an in-order subsequence of the successes |
| `AuthSession.GreedyIsBest` | src/auth2.c:673-695 | No other choice of successes gets further down a list |
| `AuthLists.StartsWithIsAnswer` | src/auth2.c:615-639 | Comparing characters at the front of the string is comparing with its first item, submethod included |
| `AuthLists.RemoveIsDrop` | src/auth2.c:647-664 | Cutting the string removes the first item, exactly when that item is completed, and leaves a well-formed list |
| `AuthObject.ValidIsWellFormed` | src/auth2-methods.c:93-134 | A list that passes the configuration check is well formed |
| `AuthObject.KeptAreWellFormed` | src/auth2.c:576-612 | Every list that survives set-up is well formed |
| `AuthObject.MethodsValid` | src/auth2-methods.c:93-134 | The nested loops accept a list if and only if it is not empty and every item names a known, and if asked enabled, method |
| `AuthObject.LookUp` | src/auth2-methods.c:106-122 | The inner loop finds a name exactly if the table has it, and enabled if that is asked for |
| `AuthObject.Authctxt.SetupMethodsLists` | src/auth2.c:576-612 | Exactly the valid configured lists are kept, in order; none left is an error; "any" alone asks for nothing |
| `AuthObject.Authctxt.MethodAllowed` | src/auth2.c:484-501 | True exactly when some list may begin with the method, or no lists are configured |
| `AuthObject.Authctxt.UpdateMethodsLists` | src/auth2.c:673-695 | Done, with the lists up to the finished one cut, or all lists cut, or the fatal exit with none cut |
| `AuthObject.Authctxt.UserauthFinish` | src/auth2.c:370-476 | The whole session state after one attempt |
| `AuthObject.Authctxt.MethodByName` | src/auth2.c:532-546 | The first table entry with that name or synonym |
| `AuthObject.Authctxt.InputUserauthRequest` | src/auth2.c:278-367 | The whole session state after one request: attempt limit, unchanged user and service, look-up, permission and outcome |
| `AuthObject.Authctxt.Challenge` | src/auth2-chall.c:153-254 | The whole session state after a device is asked, or the exchange ends because no list allows it |
| `AuthObject.Authctxt.InputUserauthInfoResponse` | src/auth2-chall.c:294-368 | The whole session state after an answer; no effect when no questions are open |
| `AuthObject.Authctxt.Serve` | src/auth2.c:174-184 | The dispatch loop leaves the state that the events determine |
| `AuthObject.DoAuthentication2` | src/auth2.c:174-184 | Run on an object from the configuration on, the user is let in exactly if the recorded successes contain one of the kept lists in order; nobody is without a usable list; with no lists, any success will do |
| `AuthObject.AnyMethod` | src/auth2.c:401-406 | With no lists configured, the first success lets the user in |
| `BitmapObject.Bitmap.constructor` | src/bitmap.c:38-51 | The empty set |
| `BitmapObject.Bitmap.Zero` | src/bitmap.c:65-69 | The empty set |
| `BitmapObject.Bitmap.TestBit` | src/bitmap.c:72-79 | True if and only if the number is in the set |
| `BitmapObject.Bitmap.Reserve` | src/bitmap.c:82-98 | Growth keeps the set, and fails exactly above the limit |
| `BitmapObject.Bitmap.SetBit` | src/bitmap.c:101-113 | Adds exactly that element, or fails above the limit and changes nothing |
| `BitmapObject.Bitmap.Retop` | src/bitmap.c:117-123 | The top index comes down to the highest non-zero word and the set stays |
| `BitmapObject.Bitmap.ClearBit` | src/bitmap.c:126-138 | Removes exactly that element |
| `BitmapObject.Bitmap.NBits` | src/bitmap.c:141-159 | The greatest element plus one, or zero for the empty set |
| `BitmapObject.Bitmap.NBytes` | src/bitmap.c:162-165 | The number of bytes up to the one with the greatest element |
| `BitmapObject.Bitmap.ToString` | src/bitmap.c:168-186 | The shortest big-endian string that holds the set, or failure with the buffer untouched exactly if that string, whose length the greatest element gives, does not fit |
| `BitmapObject.Bitmap.FromString` | src/bitmap.c:189-214 | The set the string holds, for every length; too long a string is refused and changes nothing |
| `BitmapObject.WriteThenRead` | src/bitmap.c:168-214 | Written out and read into another bitmap, the set arrives exactly if it does not hold the largest number |
| `BitmapObject.LeadingZeros` | src/bitmap.c:150-157 | The distance of a word's highest bit from the top |
| `BitmapModel.SetWord` | src/bitmap.c:101-113 | Setting a bit of a word adds one element to the set of all words |
| `BitmapModel.ClearWord` | src/bitmap.c:126-138 | Clearing a bit of a word removes one element |
| `BitmapModel.ValueBits` | src/bitmap.c:168-186 | The binary digits of the number a string denotes are the elements it holds |
| `BitmapModel.MinimalUnique` | src/bitmap.c:168-186 | Only one string without leading zeros holds a given set |
| `BitmapModel.WriteAfterRead` | src/bitmap.c:189-214 | Writing out what was read gives the string without its leading zeros |
| `BitmapModel.ReadAfterWrite` | src/bitmap.c:189-214 | A written string can be read back if and only if the set does not contain the largest allowed number |
| `BitmapModel.TopBitDoesNotReturn` | src/bitmap.c:101-113 | The set of that one number is such a case |
| `Cidr.XAddr.Netmask` | src/addr.c:168-194 | The network mask of that width and length as a number |
| `Cidr.XAddr.Invert` | src/addr.c:142-160 | All ones minus the address |
| `Cidr.XAddr.Hostmask` | src/addr.c:197-202 | The host mask as a number |
| `Cidr.XAddr.And` | src/addr.c:209-229 | Bitwise conjunction of the two numbers, a destination that is the second operand counting as the first; families must agree |
| `Cidr.XAddr.Or` | src/addr.c:232-251 | Bitwise disjunction of the two numbers, a destination that is the second operand counting as the first; families must agree |
| `Cidr.XAddr.Cmp` | src/addr.c:254-284 | The order of the two numbers, then of the scopes, though IPv6 is compared byte by byte |
| `Cidr.XAddr.IsAll0s` | src/addr.c:287-302 | Zero exactly for the zero address |
| `Cidr.XAddr.Increment` | src/addr.c:306-325 | The next number, with carry across words and wrap-around at the end |
| `Cidr.XAddr.HostIsAll0s` | src/addr.c:334-344 | Zero exactly when the address starts a block of that size |
| `Cidr.XAddr.HostToAll1s` | src/addr.c:361-370 | The last address of the block |
| `Cidr.XAddr.Netmatch` | src/addr.c:498-510 | Zero if and only if family and scope agree, the net starts a block, and the address lies between the net and the block's last address |
| `Cidr.WalkBlock` | src/addr.c:306-325 | From the first address of a block, incrementing reaches the last after exactly 2^(width-l)-1 steps and not before, visiting every address between |
| `Cidr.Walk` | src/addr.c:306-325 | Repeated increments of an address object in place give the addresses of its block one by one, and the last one exactly after 2^(width-l)-1 of them |
| `CidrMath.BlockIsInterval` | src/addr.c:498-510 | Equal leading digits means membership in the interval |
| `CidrMath.NetMaskBits` | src/addr.c:168-194 | Which digits the network mask has |
| `Cidr.FirstByteDecides` | src/addr.c:254-284 | The first differing byte orders the two 128-bit numbers |
| `ChaCha.KeystreamSplit` | src/chacha.c:89-218 | A keystream cut at a multiple of 64 bytes continues where it stopped |
| `ChaCha.KeystreamPrefix` | src/chacha.c:89-218 | A shorter keystream is a prefix of a longer one |
| `ChaCha.CryptSplit` | src/chacha.c:89-218 | Calls split at a multiple of 64 bytes equal one call |
| `ChaCha.CryptTwice` | src/chacha.c:89-218 | The operation undoes itself |
| `ChaCha.AdvanceCounter` | src/chacha.c:183-187 | After n blocks the 64-bit counter is n further on, modulo 2^64 |
| `ChaCha.AdvanceKeeps` | src/chacha.c:183-187 | Key, constants and nonce stay |
| `ChaCha.NextCounter` | src/chacha.c:183-187 | The carry from one counter word to the other is addition of one in 64 bits |
| `ChaCha.WordXor` | src/chacha.c:24-38 | Exclusive-or of words is exclusive-or of their little-endian bytes |
| `ChaCha.RoundByLines` | src/chacha.c:139-148 | A double round puts every column, then every diagonal, through the quarter round on its own |
| `ChaCha.QuarterVector` | src/chacha.c:45-49 | The quarter round gives the result of the test vector in section 2.1.1 of RFC 8439 |
| `ChaChaObject.RunBlock` | src/chacha.c:123-164 | The round loop computes the block function |
| `ChaChaObject.XorBlock` | src/chacha.c:166-204 | One block is combined with the keystream, in place or not, and nothing else is written |
| `ChaChaObject.EncryptPart` | src/chacha.c:117-122 | One turn of the loop, a short last block going through a temporary buffer |
| `ChaChaObject.KeySetupIs` | src/chacha.c:55-77 | The constant words, for 256 bits those of section 2.3 of RFC 8439, then words whose little-endian bytes are the key, or a 128-bit key twice |
| `ChaChaObject.Ctx.constructor` | src/chacha.c:55-77 | A key of 256 or 128 bits is set up |
| `ChaChaObject.Ctx.SetIv` | src/chacha.c:80-86 | Only counter and nonce are set |
| `ChaChaObject.Ctx.EncryptBytes` | src/chacha.c:89-218 | For any length, in place or between buffers, exactly the encrypted bytes are written and the counter advances by the number of blocks begun |
| `ChachaPoly.OpenIffSealed` | src/cipher-chachapoly.c:69-120 | A packet opens to a plaintext if and only if it is the sealing of that plaintext, whatever the contexts were last used for |
| `ChachaPoly.LengthAgrees` | src/cipher-chachapoly.c:124-136 | The length read ahead is the one decryption recovers, for any packet that opens and any header of at least four bytes |
| `ChachaPoly.BodyTwice` | src/cipher-chachapoly.c:98-107 | Encrypting both halves twice gives them back |
| `ChachaPoly.UsedBefore` | src/cipher-chachapoly.c:81-85 | Earlier use of the contexts changes neither the body nor the authentication key |
| `ChachaPoly.CryptZeros` | src/cipher-chachapoly.c:81-85 | Encrypting zeros yields the keystream, which is the authentication key |
| `ChachaPolyObject.Context.New` | src/cipher-chachapoly.c:40-51 | Null unless the key has 64 bytes; two contexts otherwise |
| `ChachaPolyObject.Context.MakeKey` | src/cipher-chachapoly.c:81-85 | The authentication key of a packet |
| `ChachaPolyObject.Context.CryptBody` | src/cipher-chachapoly.c:98-107 | Both halves, in place or between buffers, and nothing else is written |
| `ChachaPolyObject.Context.Run` | src/cipher-chachapoly.c:69-120 | Encrypting writes exactly the sealed packet; decrypting writes exactly the opened one, or leaves the destination unchanged if the tag differs; keys are kept |
| `ChachaPolyObject.Context.GetLength` | src/cipher-chachapoly.c:124-136 | The length, or failure below four bytes; keys are kept |
| `Cbc.Conversation` | src/cipher-aes.c:71-114 | However each side cuts the stream into calls, the plaintext arrives and both sides hold the same vector |
| `Cbc.DecryptEncrypt` | src/cipher-aes.c:71-114 | Decrypting undoes encrypting for every invertible block function, vector and number of blocks |
| `Cbc.EncryptDecrypt` | src/cipher-aes.c:71-114 | Encrypting undoes decrypting |
| `Cbc.EncryptSplit` | src/cipher-aes.c:71-114 | Two calls equal one call on the concatenation |
| `Cbc.DecryptSplit` | src/cipher-aes.c:71-114 | The same for decrypting |
| `Cbc.EncryptAllIsOne` | src/cipher-aes.c:71-114 | Any number of calls equal one call, and leave the same vector |
| `Cbc.DecryptAllIsOne` | src/cipher-aes.c:71-114 | The same for decrypting |
| `Cbc.DecryptOne` | src/cipher-aes.c:104-110 | One backward step reads the preceding ciphertext block after overwriting its own, in place or not |
| `Cbc.Context.EncryptBlocks` | src/cipher-aes.c:87-98 | The forward loop writes exactly the ciphertext, in place or between buffers, and keeps its last block |
| `Cbc.Context.DecryptBlocks` | src/cipher-aes.c:99-112 | The backward loop writes exactly the plaintext, in place or between buffers, and keeps the last ciphertext block |
| `Cbc.FrontToBackWhen` | src/cipher-aes.c:99-112 | Decrypting in place from the front would be right exactly if every block but the last decrypts to itself |
| `Cbc.FrontToBackWrong` | src/cipher-aes.c:99-112 | For every cipher and any two blocks there is a vector for which it is wrong |
| `Cbc.Context.Run` | src/cipher-aes.c:71-114 | Nothing for length zero, the fatal exit for a broken length, failure without a context, otherwise as above |
| `Dh.FirstPassSettles` | src/dh.c:218-237 | Which size the first pass settles on, for every file and every bounds, without running it, and that its count is the number of admissible lines of that size |
| `Dh.SmallestExactly` | src/dh.c:230-231 | When some group is large enough, the smallest such size is chosen if and only if no line has exactly the wanted size or one comes before every larger line |
| `Dh.ExactMatchPassedOver` | src/dh.c:230-231 | A file in which an exact match is passed over |
| `Dh.RanksDiffer` | src/dh.c:250-266 | Matching lines have different ranks, so a draw names one line at most |
| `Dh.NoneCounted` | src/dh.c:243-248 | Nothing is counted exactly when nothing is wanted or nothing is admissible |
| `Dh.ChooseDh` | src/dh.c:163-276 | Both loops: no prime exactly when there is none, otherwise the line of the best size whose rank was drawn, and the fallback exactly if the file read again has no line of that rank, so never on an unchanged file |
| `KeyOptions.RoundTrip` | src/auth-options.c:848-910 | Reading what was written, followed by any bytes, gives the options in canonical form and leaves exactly those bytes |
| `KeyOptions.SurvivesExactly` | src/auth-options.c:796-845 | The options come back unchanged if and only if every flag fits a byte and the tunnel number is at least minus one |
| `KeyOptions.UnsetTunnelBecomesZero` | src/auth-options.c:817-820 | A tunnel number below minus one is read back as zero |
| `KeyOptions.Injective` | src/auth-options.c:796-845 | No encoding is a prefix of another one's, so different options have different encodings |
| `KeyOptions.ReadNullableBack` | src/auth-options.c:772-793 | A missing string and an empty one are told apart |
| `KeyOptions.ReadArrayBack` | src/auth-options.c:704-769 | An array of strings comes back, whatever follows |
| `Wire.ReadCStrBack` | src/sshbuf-getput-basic.c:284-316 | A string without NUL comes back |
| `KeyOptionsObject.Serialise` | src/auth-options.c:796-845 | Succeeds exactly when the buffer can hold the encoding and then appends exactly that; an untrusted reader gets the redacted options |
| `KeyOptionsObject.SerialiseArray` | src/auth-options.c:704-728 | The same for an array, through an inner buffer |
| `KeyOptionsObject.SerialiseNullable` | src/auth-options.c:772-780 | The same for a string that may be missing |
| `KeyOptionsObject.Deserialise` | src/auth-options.c:848-910 | Succeeds exactly when the bytes decode, returns the decoded options and consumes exactly their bytes |
| `KeyOptionsObject.DeserialiseArray` | src/auth-options.c:731-769 | The same for an array |
| `KeyOptionsObject.DeserialiseNullable` | src/auth-options.c:783-793 | The same for a string that may be missing |
| `KeyOptionsObject.Buffer.Put` | src/sshbuf-getput-basic.c:339-349 | All or nothing, up to the maximum size |
| `KeyOptionsObject.Buffer.PutString` | src/sshbuf-getput-basic.c:527-542 | Length and bytes, or nothing |
| `KeyOptionsObject.Buffer.PeekString` | src/sshbuf-getput-basic.c:251-281 | A complete string within the maximum size at the front, which stays there |
| `KeyOptionsObject.Buffer.GetString` | src/sshbuf-getput-basic.c:225-281 | A complete string within the maximum size is taken off the front; otherwise nothing is |
| `KeyOptionsObject.Buffer.GetCString` | src/sshbuf-getput-basic.c:284-316 | The scan accepts a NUL at the end only; a refused string stays in the buffer |
| `Atomicio.Atomiciov` | src/atomicio.c:99-166 | The loop over vectors returns what the loop over bare counts returns; what was handed over is a prefix of the concatenated vectors of the returned length; normal exit has moved everything if and only if the first vector is not empty or there is nothing to move |
| `Atomicio.Consume` | src/atomicio.c:141-158 | Cutting n bytes off the front, or failing exactly when fewer are left |
| `Atomicio.Flat` | src/atomicio.c:121-164 | Normal exit means everything was moved |
| `Atomicio.NeverFaults` | src/atomicio.c:149-153 | The fault branch is unreachable when no call moves more than is left |
| `Atomicio.Completes` | src/atomicio.c:121-164 | With calls that neither fail nor stop, the transfer completes exactly when enough has been moved, across any retries and short transfers |
| `Escape.UndoesInChunks` | src/clientloop.c:1180-1397 | The escaped text comes out as the text in every chunking, for every escape character that is no command letter |
| `Escape.Undoes` | src/clientloop.c:1362-1396 | The same for one buffer, with the state it leaves |
| `Escape.CommandLetterLost` | src/clientloop.c:1206-1360 | An escape character that is a command letter cannot be typed by doubling it |
| `Escape.AnyChunking` | src/clientloop.c:1196-1204 | Without terminating escapes, any cutting of the input gives the same output and state |
| `Escape.Split` | src/clientloop.c:1196-1204 | A cut changes nothing unless a terminating escape lies before it, and then exactly the part after it is lost |
| `Escape.EscapeFilter.ProcessEscapes` | src/clientloop.c:1180-1397 | The loop computes the specified output, notes and state, and its return code counts the bytes put out |

## Left out

- Datagram (tun) channels, which charge four bytes more on receipt than on sending; the window theorems are about stream channels.
- Channels whose buffers also receive local text: escape-filtered sessions, mux status text and SOCKS replies count as consumed although the peer never paid for them.
- Input and output filters, forced reads on a terminal and the detaching of a session on close.
- Open failure, X11 and remote dynamic channel types, listeners and connection set-up.
- Packets from the server that open a channel towards a mux client, and forwarding requests of mux clients.
- Packet framing, encryption and the send queue: a link is a sequence of messages.
- The results of the authentication methods themselves, PAM, Kerberos, GSSAPI, audit and the delays that hide timing.
- Poly1305, AES and big numbers, which are functions with the stated length, or inverse to each other.
- The text of the moduli file: a line is a size or does not parse; a size is the listed one plus one.
- `sshauthopt_merge`, the parsing of key options and the error codes of the buffer functions.
- What the escape commands do beyond the record that they were given.
- Signals, clocks, logging, memory allocation failure and the C# manager.
- ChannelObject.Channel.ChannelHandleRfd: forced reads on a terminal and input filters are not modelled, because they change the stream that the theorems are about.
- ChannelObject.Channel.ChannelHandleWfd: output filters and datagrams are not modelled, for the same reason.
- ChannelObject.Channel.ChannelHandleEfdRead: forced reads on a terminal are not modelled.
- ChannelObject.Channel.ChannelPreOpen: the poll interest bits are not modelled, because a schedule decides which handler runs.
- ChannelObject.Channel.ChannelGarbageCollect: detach callbacks and zombie channels are not modelled.
- ChannelObject.Channel.ChannelInputExtendedData: the data type code and the compatibility flag for old peers are not modelled.
- ChannelRun.Read: forced reads on a terminal and input filters are not modelled, as in the handler it calls.
- ChannelRun.Write: output filters and datagrams are not modelled, as in the handler it calls.
- ChannelRun.ErrRead: forced reads on a terminal are not modelled, as in the handler it calls.
- ChannelRun.Finish: the poll interest bits are not modelled, as in the handler it calls.
- ChannelRun.GarbageCollect: detach callbacks and zombie channels are not modelled, as in the handler it calls.
- ChannelRun.TakeExtended: the data type code and the compatibility flag are not modelled, as in the handler it calls.
- MuxObject.Channels.ProxyDownstream: malformed packets, which are dropped, and forwarding requests are not modelled.
- MuxObject.Channels.ProxyUpstream: packets for channels that are no proxies are handled elsewhere and have no effect here.
- MuxObject.Channels.DetachClient: the type and half states of a detached channel are not kept.
- AuthObject.Authctxt.InputUserauthRequest: the lists are set up before the first request and not in it.
- AuthObject.Authctxt.Challenge: the order of the devices, and that each is tried once, are not modelled; any device that is allowed may be asked.
- AuthObject.Authctxt.UserauthFinish: the internal-error exits are not modelled, because no method reports what they guard against.
- KeyOptionsObject.Serialise: does not state how much was appended when it fails, because callers discard the buffer.
- KeyOptionsObject.Deserialise: does not state how much was consumed when it fails, for the same reason.
- ChachaPolyObject.Context.GetLength: takes the bytes as a value, because they are only read.
- Cbc.Context.Run: does not model the conversion of the block count to `int`.
- Dh.ChooseDh: returns the number of the chosen line in place of the group, and one outcome for every way of falling back.
- MuxTheorems.CloseDiscipline: assumes that live server ids are unique, which is the server's duty; without it CLOSE finds the first channel with the id. The record is written together with the table; `MuxPackets.FreedExactly` says the same of packets.
- MuxTheorems.OwnersAgreeAlways: the record is written together with the table; `MuxPackets.RoutedToOpener` and `MuxPackets.RoutedOnlyToOpener` say it of packets.
- MuxPackets.FreedExactly: assumes unique live server ids, for the same reason.
- Atomicio.Atomiciov: takes the results of the calls as a sequence, and `Waiting` stands for a run that is still going on.
- Escape.EscapeFilter.ProcessEscapes: one buffer `bin` and a list of notes stand for the three buffers.
