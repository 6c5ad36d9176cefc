# xl2tpd in Dafny

xl2tpd is a user-space daemon for the Layer Two Tunnelling Protocol (RFC 2661). This project
models the parts of it whose correctness is hardest to see, and proves what they promise:

* the reliable control channel: 16-bit sequence numbers, zero-length acknowledgements,
  retransmission with growing pauses, Hello messages and the two-phase close
  (`Endpoint`, `Channel`, `ChannelLimits`, `ChannelProgress`, `Keepalive`);
* the timer queue (`Scheduler`);
* the wire formats: control messages and their attributes (`AvpHandlers`, `AvpParser`,
  `AvpMessages`, `AvpBuilder`, `ForeignMessages`), hidden attributes (`HiddenAvp`,
  `HiddenRoundTrip`, `HiddenBytes`), data headers (`Payload`, `PayloadFormat`), PPP frames and
  their check sequence (`Ppp`, `PppRoundTrip`, `PppFormat`, `Fcs`), and MD5 (`Md5`);
* tunnel authentication, what each message achieves, and the agreement of two daemons on
  identifiers (`WalkEffects`, `TunnelAuth`, `UnmarkedTypes`, `Handshake`, `Agreement`);
* the daemon's records: lists of tunnels and calls, queued events, buffers and assigned
  addresses (`AddressPool`, `Daemon`, `DaemonSafety`, `DaemonEffects`, `DaemonRuns`, `MainLoop`).

`Words` and `Splicing` hold bytes, words and in-place overwriting.

The model is of the default build: SANITY and IP_ALLOCATION on, TEST_HIDDEN off, the
user-space data path. Code that changes things in place is a class or an array method here,
proved equal to a function of its old state; the theorems are about those functions and about
runs of them. Closing a tunnel appears in `Channel`, `Keepalive` and `Daemon`, each time with the
state its question is about; all three take their timer decisions from `Endpoint.Xmit`.
`dafny verify dfyconfig.toml` checks everything.

## What the code does not do

These are properties one would expect that the code does not have. Each is shown by a run or an
input, and the exact condition under which the property holds is proved beside it.

* A zero-length message for a call that is gone advances the expected number without being
  undone (control.c:1762-1771, against control.c:1805), so the peer's next message is refused
  and yet acknowledged: `ChannelLimits.SkippedNumberLosesMessage`. Delivery is faithful if and
  only if this has not happened, `Channel.FaithfulUnlessSkipped`, and a message whose number was
  used up is accepted in no continuation: `Channel.SkippedIsLost`.
* Sequence numbers are compared as plain integers. In-order delivery holds for up to 65,535
  messages on a tunnel and no further: `ChannelLimits.PrefixExactlyBelowWrap`.
* `cLr >= closeSs` is satisfied by an acknowledgement of the message before the closing one:
  `ChannelLimits.CloseConfirmedUnreceived`. A confirmation means that the StopCCN was accepted
  exactly when it acknowledges more than that: `ChannelLimits.ConfirmedExactlyPast`.
* A deadline whose microseconds come to exactly 1,000,000 is not carried over (scheduler.c:94),
  so a later event can overtake an earlier one due at the same instant:
  `Scheduler.FullSecondExample`, and if and only if in `Scheduler.FifoUnlessFullSecond`.
* `get_addr` returns 0 both for "none" and for the address 0.0.0.0; `AddressPool.Pool.GetAddr`
  gives the exact condition. The search of a range that ends at 255.255.255.255 goes on from
  0.0.0.0: it may give an address that no range allows, `AddressPool.OutsideExample`, or not
  end, `AddressPool.EndlessExample`. Exactly when the address is a free one is
  `AddressPool.ChosenIsFree`; exactly when there is no end is in `AddressPool.Pool.GetAddr`.
* The header of an attribute is put in host order before its length is looked at (avp.c:1656),
  two handlers read a value before or without checking its size, seven write to the first call
  of the tunnel without asking if there is one, and those that find their attribute not meant
  for the message log its name from a table of 17 without asking if it is in it. That log is on
  for every tunnel (misc.h:47, xl2tpd.c:911). All packets of a length are parsed with no access
  to memory that is not there exactly if they are empty, or have at most six bytes and five more
  behind them: `AvpParser.RoomNeeded`. By kind: the buffer is not left exactly if it holds five
  bytes more than a nonempty packet, `AvpParser.PastExactly`; no call is missed exactly if there
  is one or the packet has at most twelve bytes, `AvpParser.NullExactly`; the table is not left
  exactly if it has at most six, `AvpParser.UnnamedExactly`. For a single packet the table is
  not left exactly if every handler that runs is for the message, or the message is in the
  table: `WalkEffects.WalkNamed`. A packet that begins with a Message Type and in which none
  fails its check under a clear M bit is one, `WalkEffects.HeededIsNamed`; seven bytes without a
  Message Type, in which therefore none fails, are not, `WalkEffects.NamelessIsHeeded`.
* A Message Type that fails its check is passed over when its M bit is clear (avp.c:1771-1790),
  and the message is acted on. One packet establishes a tunnel nobody has been asked to prove
  anything for, `UnmarkedTypes.UnmarkedTypeEstablishes`, and one replaces the name of a proven
  peer, `UnmarkedTypes.UnmarkedTypeRenames`. Others make the daemon read through a null pointer:
  the LNS entry of a tunnel that has none (control.c:660-665),
  `UnmarkedTypes.UnmarkedConnectedDies`, or the first call of a tunnel without calls,
  `UnmarkedTypes.UnmarkedRequestIsNull`; or outside the table of message names, for every type
  above 16, `UnmarkedTypes.UnmarkedTypeIsUnnamed`. A message is acted on in a state that allows it if and
  only if the last Message Type in the packet passed: `UnmarkedTypes.AllowedExactlyWhenPassed`.
* On a call, such a request is accepted without creating one, and the first call of the tunnel is
  taken for it (control.c:722): `UnmarkedTypes.UnmarkedRequestReuses`. The address that call had
  stays reserved for nobody, `DaemonRuns.ReassignedIsLost`, for good, `DaemonRuns.LostForGood`.
  Each reserved address belongs to a call if and only if no call was given one twice:
  `DaemonRuns.HeldExactlyWhenGivenOnce`.
* The main loop reads the record of the call a packet came in on after handling it
  (network.c:663-673). That record is gone by then exactly if it was closing and the packet
  connects it, or has it taken for the call that is asked for, and that is refused for want of
  an entry, a number or an address: `DaemonRuns.OwnCallFreed`.
* A call placed from the control pipe has no LAC entry (xl2tpd.c:1308, xl2tpd.c:1364), and the
  peer's ordinary answer is acted on with the options of that entry (control.c:866-945):
  `UnmarkedTypes.UnenteredAnswerDies`. One event is survived exactly if its packet finds what it
  uses, `TunnelAuth.EventSurvives`, and so is a run, `TunnelAuth.CheckedSurvives`.
* A CDN on the tunnel itself that names one of its calls closes the tunnel, and not the call
  (control.c:1121-1167, where `p` is found and `c` is closed): `Handshake.DisconnectOnTunnel`. On
  a call it closes that call exactly if it names it: `Handshake.DisconnectCloses`.
* A sequenced data packet is taken if it is at most two ahead of the last one, but where the
  numbers wrap it is taken up to 32,768 ahead: `PayloadFormat.TakenExactly`.
* An error code that is a multiple of 256 is taken for one in the wrong byte order:
  `AvpMessages.ErrorCodeKept`.
* The escape of a PPP byte is forgotten between two calls of `read_packet`:
  `PppRoundTrip.StallLosesEscape`. And its buffer is taken to have 4096 bytes where it has 4082
  (call.c:37, call.c:188), so a longer frame from the child is stored past its end:
  `PppRoundTrip.LongFrameOverruns`, and if and only if in `PppRoundTrip.StoresInside`. Exactly
  when payloads come out as they went in is `PppRoundTrip.PacketsSurvive`.
* `add_fcs` stores two bytes behind a packet that may fill the receive buffer (control.c:1688):
  both are inside it if and only if the packet received has at most 4084 bytes,
  `Payload.CheckBytesInside`, and longer ones are received, `Payload.LongPacketDelivered`.

The documentation of `call_close` speaks of the StopCCN having been acknowledged
(call.c:267-268); the code is followed.

## Model

| member | source | states |
|---|---|---|
| `Endpoint.Tunnel.AddControlHdr` | control.c:106-120 | The header carries both numbers as they were, and only the send number moves on. |
| `Endpoint.Tunnel.ControlZlb` | control.c:149-159 | A zero-length message uses no number: the tunnel's counters are unchanged. |
| `Endpoint.Tunnel.CheckControl` | control.c:1181-1319 | The counters, flags and reply for every packet: out of order, already seen, first on a new tunnel, in order but of another version. |
| `Endpoint.Tunnel.HandleControl` | control.c:1789-1829 | As the receive function of the channel: a zero-length body undoes the count and may confirm a close. |
| `Endpoint.Tunnel.HandleUnknownCall` | control.c:1745-1787 | As the receive function for a call that does not exist, with the count left advanced by a zero-length body. |
| `Endpoint.Tunnel.ControlXmit` | network.c:199-282 | Whether a buffer is tossed, given up or sent again, after how long, and that each run counts one try. |
| `Channel.RunKeepsInv` | control.c:1181-1319 | In every run over a losing, duplicating, reordering network, with packets for the tunnel that their header names, both directions keep the channel invariant. |
| `Channel.ReliableDelivery` | control.c:1217-1260 | What one side accepted is a prefix of what the other numbered, in order and once each, and the expected number is its length. |
| `Channel.FaithfulUnlessSkipped` | control.c:1762-1771 | Below 65,536 numbers, delivery is faithful if and only if no number was used up by a zero-length body for an unknown call. |
| `Channel.SkippedIsLost` | control.c:1762-1771 | The message whose number was used up is accepted in no continuation of the run, and what is accepted under other numbers are the messages of those numbers. |
| `Channel.UnacceptedIsQueued` | network.c:263-281 | Until its sender closes, a message whose number the peer has not come to is queued in exactly one retransmission with its own body, for both sides. |
| `Channel.TossedWasAccepted` | network.c:221-234 | A message is tossed as acknowledged only if the peer accepted that message or used up its number, although the acknowledgement may go backwards. |
| `Channel.CloseConfirmed` | control.c:1805-1818 | A zero-length body confirms a close of either side only if `closeSs` is the number of the one StopCCN it sent, the peer has come to that number, and, if the acknowledgement goes past it, has accepted it. |
| `Channel.RunKeepsStops` | call.c:274-323 | In every run a tunnel sends at most one StopCCN, none before it closes, and the message whose acknowledgement a closing tunnel waits for is that one. |
| `ChannelProgress.TimerExactly` | network.c:199-282 | The timer of a queued message: dropped if acknowledged; sent again, and nothing else, if it has gone out fewer times than allowed; only otherwise is the tunnel given up, with a StopCCN in the place of all that is queued, or gone. |
| `ChannelProgress.MessageGoesThrough` | network.c:199-282 | In every reachable state, a message that the peer expects and that has not been given up is accepted by the peer and dropped from the queue after one timer run, its packet, the acknowledgement and one more timer run. |
| `ChannelProgress.DuplicateAcknowledged` | control.c:1223-1246 | In every reachable state, a message that was received before is answered with the number expected next, and changes nothing. |
| `ChannelProgress.DeliveredExactly` | control.c:1197-1319 | A message is delivered if and only if its length is right, it has the bits T, L and S and version 2, it is not empty, and it is the next one. |
| `ChannelProgress.ReceivedExactly` | control.c:1256-1262 | What the next packet does to the expected number, the acknowledgement and the wait for a close. |
| `ChannelProgress.UnexpectedExactly` | control.c:1217-1255 | Of the others, exactly those received before, up to 32,767 ago, are answered, and exactly the first of a tunnel without a peer closes it. |
| `ChannelProgress.UnknownCallAnswered` | control.c:1772-1786 | A message for a call that does not exist is acknowledged to that call. |
| `ChannelProgress.HeaderIs` | control.c:106-120 | The header of every packet of a tunnel, word by word. |
| `ChannelLimits.SkippedNumberLosesMessage` | control.c:1762-1771 | For all bodies and identifiers, a run after which a message is neither accepted nor queued any more. |
| `ChannelLimits.CloseConfirmedUnreceived` | control.c:1807-1818 | For all bodies and identifiers, a run in which a close is confirmed although the peer never accepted the StopCCN. |
| `ChannelLimits.ConfirmedExactlyPast` | control.c:1807-1818 | In all runs a confirmation at distance d past the closing number means the StopCCN was accepted, if and only if d is positive. |
| `ChannelLimits.WrappedRun` | control.c:1217-1260 | For all identifiers, a run in which the first message is accepted again as number 65,536. |
| `ChannelLimits.PrefixExactlyBelowWrap` | control.c:1217-1260 | Runs of at most n messages all deliver a prefix if and only if n is below 65,536. |
| `Keepalive.SilentPeerIsDropped` | control.c:122-147 | With timers on time, an established tunnel from which nothing is heard any more is gone 60 + 2 (2^R - 1) seconds later, for R retries up to 32, whatever is sent meanwhile. |
| `Keepalive.AtMostMaxRetries` | network.c:235-281 | In every run, whatever the peer acknowledges and when, no control message is transmitted more than R times. |
| `Keepalive.RestIsPowers` | network.c:265-275 | The pauses of a message tried from the r-th to the R-th time add up to 2^R - 2^r. |
| `Keepalive.NotGivenUpEarly` | network.c:235-281 | In every run in which nobody closes the tunnel, whatever the peer says and when, it stops running only when some message has been transmitted R times, and 2^R - 1 seconds have passed since it first was. |
| `Keepalive.TransmittedOnSchedule` | network.c:263-281 | In every run a queued message has been transmitted exactly as often as the time since its first transmission has room for: again after 1, 3, 7, ... seconds. |
| `Keepalive.FiveTries` | l2tp.h:115-115 | With five tries the pauses are 1, 2, 4, 8 and 16 seconds, 31 in all. |
| `Scheduler.DeadlineIsExact` | scheduler.c:90-98 | The stored deadline is the exact sum in microseconds. |
| `Scheduler.InsertKeepsSorted` | scheduler.c:99-119 | Inserting keeps the queue sorted as the comparison macro sees it. |
| `Scheduler.SortedIsInOrder` | scheduler.h:58-63 | A queue sorted by that macro is in order of real time, even with 1,000,000 microseconds stored. |
| `Scheduler.FifoUnlessFullSecond` | scheduler.c:94-119 | Inserting keeps first-in-first-out on ties if and only if the new entry does not hold a full second before an entry at the next second. |
| `Scheduler.FullSecondExample` | scheduler.c:94-98 | Two events due at the same instant that change order. |
| `Scheduler.Queue.Schedule` | scheduler.c:81-122 | The list loop inserts behind everything not later, and the queue stays sorted. |
| `Scheduler.Queue.Deschedule` | scheduler.c:141-164 | Exactly the first entry with the handle goes; an unknown handle changes nothing. |
| `Scheduler.Queue.ProcessSchedule` | scheduler.c:28-79 | With a frozen clock and callbacks that schedule only into the future it ends, leaves nothing due, runs every due event not removed meanwhile, each once and in the order of the queue and of real time, and returns the exact positive gap to the next. |
| `Md5.Context.constructor` | md5.c:62-71 | A new context has taken in the empty message. |
| `Md5.CounterAdds` | md5.c:82-87 | The two 32-bit counters hold 8 times the length modulo 2^64 after every update. |
| `Md5.Context.Update` | md5.c:77-123 | A context that has taken in a message takes in the longer one, for any cut. |
| `Md5.Context.Pad` | md5.c:129-161 | The padding blocks are those of sections 3.1 and 3.2 of RFC 1321. |
| `Md5.Context.Finish` | md5.c:129-170 | The digest is the fold of the transform over the padded message, and the context is wiped. |
| `Md5.DigestOfChunks` | md5.c:77-170 | However a message is cut into updates the digest is that of the whole. |
| `Md5.OneBlockDigest` | md5.c:62-170 | Written out for every message of less than 56 bytes: the initial words, a one bit, zeros, the length in bits, and the four words of the result, low byte first. |
| `Md5.ChallengeDigest` | aaa.c:275-280 | The response to a challenge is the digest of message type, secret and challenge in one piece. |
| `Fcs.TableCorrect` | control.c:25-58 | Each of the 256 table entries is eight steps of the bit-serial register. |
| `Fcs.TableStepIsSerial` | control.c:25-58 | One table step equals feeding a byte bit by bit with polynomial 0x8408, from any register. |
| `Fcs.TableIsSerial` | control.c:94-98 | So do all byte strings. |
| `Fcs.ResidueIsGood` | control.c:99-103 | Any data followed by its two check bytes gives 0xf0b8. |
| `Fcs.PresetComplements` | control.c:91-98 | The preset: the register is that of the data with its first two bytes complemented, started from zero. |
| `Fcs.AddFcs` | control.c:89-104 | The two bytes are put behind the data, nothing else changes, and the result has the good residue, if and only if both are inside the buffer. |
| `HiddenAvp.PaddedSizeIsLeast` | aaa.c:379-382 | The hidden size is the least multiple of 16 that holds the value and its length. |
| `HiddenAvp.UnmaskInvertsMask` | aaa.c:473-495 | Unmasking undoes masking through all chained 16-byte segments, for any hash. |
| `HiddenAvp.RevealInvertsHidden` | aaa.c:434-511 | On the words and body of the wire form, revealing a hidden attribute gives back attribute, vendor, flags and value. |
| `HiddenAvp.MaskInPlace` | aaa.c:402-431 | The loop over the packet masks exactly the range given, each segment keyed by the masked one before. |
| `HiddenAvp.EncryptAvp` | aaa.c:363-432 | The packet afterwards holds the hidden form of the attribute, through the overlapping header rewrite; `HiddenBytes.ConcealedByte` gives its bytes. |
| `HiddenAvp.UnmaskInPlace` | aaa.c:473-495 | The byte loop with its saved segment computes the unmasking of the range. |
| `HiddenAvp.DecryptAvp` | aaa.c:434-511 | The packet afterwards is the revealed one; it fails exactly without a vector or with an inner length that is too long; `HiddenBytes.RevealedByte` gives its bytes. |
| `HiddenAvp.RestoredHoldsAvp` | aaa.c:496-510 | The revealed attribute stands two bytes further on with its own header and value; the rest of the packet is untouched. |
| `HiddenBytes.ConcealedByte` | aaa.c:393-431 | Every byte that is masked is the plain one combined with its byte of a digest: of attribute, secret and random vector for the first sixteen, of the secret and the sixteen masked before for the others. |
| `HiddenBytes.ConcealedHeader` | aaa.c:379-388 | The header keeps vendor, attribute and its other flags, has the H bit set, and the length of header and padded part; the rest of the packet is as it was. |
| `HiddenBytes.RevealedExactly` | aaa.c:456-505 | A hidden attribute is revealed if and only if the length that its first two bytes give, combined with the digest of attribute, secret and vector, is inside it. |
| `HiddenBytes.RevealedByte` | aaa.c:456-495 | Then every byte of the value is the masked one combined with its byte of the same digests. |
| `HiddenBytes.RevealedHeader` | aaa.c:496-510 | And the header before it has the flags without the H bit, the length of the value, and vendor and attribute as they were. |
| `HiddenRoundTrip.DecryptUndoesEncrypt` | aaa.c:363-511 | `decrypt_avp` on the packet `encrypt_avp` left, its header put in host order on the way, gives back attribute, vendor, flags and value. |
| `HiddenRoundTrip.StepOfHidden` | avp.c:1715-1790 | The parser's step over an attribute the sender hid is one run of its handler on the plain value, and the walk goes on behind the hidden form. |
| `AvpParser.OnlyTypeSetsType` | avp.c:136-146 | No handler but that of the Message Type changes the message type. |
| `AvpParser.WalkIsSafe` | avp.c:1652-1817 | For every packet the walk ends; an accepted body is tiled exactly, and no access was past the buffer, to a call that is not there or outside the table of message names; every handler gets an attribute inside the packet; the message type changes only if one was handled. |
| `AvpParser.StepInPlace` | avp.c:1654-1809 | One attribute in the buffer, as the pure step: rejected, skipped, revealed, handled, past the buffer, without a call to write to, or without a name to log. |
| `AvpParser.HandleAvps` | avp.c:1631-1818 | The loop over the buffer gives the session, answer and buffer of the pure walk, and whether an access was past the buffer, to a call that is not there, or outside the table of message names. |
| `AvpParser.WalkStaysInside` | avp.c:1654-1712 | With five bytes behind the packet no access of the walk is past the buffer. |
| `AvpParser.WalkFindsCall` | avp.c:1317-1566 | On a tunnel with a call, no access is to one that is not there. |
| `AvpParser.ShortFindsNone` | avp.c:136-153 | Nor is one in a packet of at most twelve bytes. |
| `AvpParser.RoomNeeded` | avp.c:1654-1790 | All packets of a length are parsed with no access to memory that is not there, if and only if the length is 0, or it is at most six and there are five bytes behind the packet. |
| `AvpParser.PastExactly` | avp.c:1654-1712 | No packet of a length is parsed past its buffer, if and only if the length is 0 or there are five bytes behind it. |
| `AvpParser.NullExactly` | avp.c:984-1566 | No packet of a length is written to a call that is not there, if and only if the tunnel has a call or the length is at most twelve. |
| `AvpParser.UnnamedExactly` | avp.c:67-85 | No packet of a length has a name logged from outside the table, if and only if the length is at most six. |
| `AvpParser.NamelessIsRead` | avp.c:846-859 | Seven bytes, an unknown attribute over an empty Host Name and no Message Type, are enough for that, whatever follows. |
| `AvpParser.ValuelessIsRead` | avp.c:136-153 | So are twelve, an empty Message Type that takes the header behind it for its value, and an empty Host Name, in every session. |
| `AvpParser.HeadlessIsNull` | avp.c:984-991 | Thirteen bytes are enough to be written to a call that is not there, whatever follows. |
| `AvpMessages.WalkOfWire` | avp.c:1652-1817 | Parsing a built list of attributes is running their handlers in order, up to one that stops or accesses what is not there. |
| `AvpMessages.MessageRoundTrip` | avpsend.c:29-300 | Each of SCCRQ, SCCRP, SCCCN, StopCCN, Hello, ICRQ, ICRP, ICCN and CDN, built and parsed in a state that allows it, is accepted and tells exactly what the sender put in. |
| `AvpMessages.UnallowedRefused` | avp.c:136-313 | In a state that does not allow it each message is refused, and only its type has been learned. |
| `AvpMessages.ErrorCodeKept` | avp.c:506-520 | An error code survives if and only if it is 0 or not a multiple of 256; otherwise its bytes are exchanged. |
| `ForeignMessages.HeaderDecides` | avp.c:1652-1770 | For every attribute of every packet: one that is unknown, has reserved bits, no handler, or is hidden without a vector goes by its M bit; one longer than the packet, shorter than its header, or first without being a Message Type ends it; with which error. |
| `ForeignMessages.RequestTells` | avp.c:984-1566 | A request of any peer, with any of its attributes in any order, creates a call each field of which is what the last attribute of that kind says. |
| `ForeignMessages.ConnectionTells` | avp.c:790-835 | The same for the message that connects a call: speeds, framing, delay and sequencing. |
| `ForeignMessages.CodesStoredExactly` | avp.c:476-545 | The result code, error code and text of a StopCCN or CDN are stored if and only if the result is one of the 7 or 11 there are, in either byte order. |
| `ForeignMessages.SizesChecked` | avp.c:604-1330 | Each of thirteen attributes of fixed size is accepted with that size, refused with any other in the messages it is for, and changes nothing in other messages. |
| `ForeignMessages.OtherSizesChecked` | avp.c:136-153 | A Message Type of a wrong size is refused, and taken for what it says all the same; protocol version and sequencing are refused in every message. |
| `ForeignMessages.AllowedExactly` | avp.c:171-313 | A message is allowed if and only if it is a StopCCN on the tunnel, a Hello or a CDN, or one that the table of the tunnel's state, for messages on it, or of the call's state awaits. |
| `ForeignMessages.RequiredArePresent` | avpsend.c:29-300 | Every message of the daemon begins with its type and has the attributes that section 6 of RFC 2661 asks of it, with the M bit set. |
| `ForeignMessages.VersionIsNamed` | avpsend.c:56-64 | One that introduces the daemon names version 1.0 of the protocol. |
| `AvpBuilder.Outgoing.AddAvp` | avpsend.c:29-54 | An attribute is appended to the buffer and nothing before it changes. |
| `AvpBuilder.Outgoing.AddMessage` | avpsend.c:29-300 | The buffer holds the attributes of the message, and every store is inside it. |
| `AvpBuilder.MessageFits` | avpsend.c:96-107 | Every message of the daemon fits behind the control header in 4096 bytes. |
| `Ppp.WritePacket` | control.c:1631-1711 | Header skipped, check bytes added and frame written, in the two buffers; every access is inside them if and only if the offset is inside the packet and two bytes are left behind it; then the frame is written if and only if it fits. |
| `Ppp.Encode` | control.c:1689-1711 | The encoding loop never leaves the 4096 bytes, and gives the frame if and only if it fits. |
| `Ppp.Reader.Handle` | call.c:147-197 | One byte of the chunk, as the byte function: flag, escape, data behind the room for the header, a store past the end, overrun. |
| `Ppp.Reader.ReadPacket` | call.c:91-206 | The reading loop gives the result and the state of the pure reader, and whether a store would leave the 4096 bytes. |
| `Ppp.ReadRunsTape` | call.c:100-197 | One call reads on along bytes, stalls and errors, however the bytes are cut into chunks. |
| `Ppp.SessionIsRun` | network.c:693-722 | For every input, repeated calls depend only on the bytes and on where the stalls and errors are among them. |
| `PppRoundTrip.PacketsSurvive` | control.c:1688-1711 | Any list of nonempty payloads that fit comes out of the reader as it went into the writer, if and only if no stall comes right after the escape of a payload byte, no call sees more than ten errors, and no frame is longer than 4082 bytes. |
| `PppRoundTrip.StoresInside` | call.c:186-194 | With at most ten errors a call, every store is inside the buffer if and only if no frame is longer than 4082 bytes; and the reader goes on if and only if both hold. |
| `PppRoundTrip.LongFrameOverruns` | call.c:31-40 | A frame longer than that, if the writer takes its payload, is stored past the end of the buffer. |
| `PppRoundTrip.LongFramesFit` | control.c:1689-1711 | The writer would take such a payload, 4081 bytes of 0x41; packets from the network give it at most 4080 (`Payload.CheckBytesInside`), so such a frame comes from the child. |
| `PppRoundTrip.StallLosesEscape` | call.c:93-96 | For every payload and escaped byte in it, a stall right after the escape brings the payload out with that byte changed. |
| `PppFormat.FrameReads` | control.c:1688-1711 | Every frame, read as section 4.2 of RFC 1662 says: flags only at its ends, no control characters, the payload and its complemented check sequence between them, and nothing escaped that need not be. |
| `Payload.AddPayloadHdr` | call.c:49-89 | The header is put right before the payload, which is unchanged. |
| `Payload.FixHdr` | network.c:156-183 | The words of the header that is there are put in host order, in place. |
| `Payload.Extract` | network.c:136-154 | Tunnel and call, from the place the length bit decides. |
| `Payload.CheckPayload` | control.c:1321-1426 | The sequence of checks is one condition on version, length and flags. |
| `Payload.NothingMissing` | control.c:1449-1503 | A header with all fields stays as it is. |
| `Payload.ExpandHeader` | control.c:1427-1503 | For all eight combinations of flags the in-place expansion equals the pure one: every word is read before it is written over. |
| `Payload.ExpandedHeader` | control.c:1463-1503 | The expanded bytes hold the fields of the full header. |
| `Payload.DataCall.HandlePayload` | control.c:1843-1932 | What becomes of a data packet and of the sequence numbers, in place, as the receive function; an offset beyond the packet leaves a length that has wrapped. |
| `Payload.PayloadSurvives` | control.c:1522-1572 | An unsequenced packet is for the call it was sent to, is never refused whatever has been counted, and gives back its payload. |
| `Payload.CheckBytesInside` | network.c:533-534 | For every delivered packet in the receive buffer: the two bytes behind it are inside if and only if it has at most 4084 bytes, and the payload has at most 4080. |
| `Payload.LongPacketDelivered` | control.c:1688-1688 | For all identifiers and payloads of 4079 bytes, a packet of 4085 bytes is delivered. |
| `PayloadFormat.ExpandsToFields` | control.c:1449-1503 | A header laid out field by field, with any of length, numbers and offset, expands to one with exactly its fields; what it leaves out is filled in. |
| `PayloadFormat.PacketOutcome` | control.c:1843-1932 | Every packet so laid out is for the tunnel and call it names, and is refused, empty, beyond its offset, or delivered without header and padding, exactly as its fields and the numbers of the call say. |
| `PayloadFormat.OffsetSkipped` | control.c:1631-1633 | A packet with an offset gives back its payload without the padding. |
| `PayloadFormat.TakenExactly` | control.c:1522-1564 | A packet is taken if and only if it is at most two ahead of the last number received, or 32,768 where the numbers wrap, or has the number of the next packet sent the other way. |
| `PayloadFormat.SentLayout` | call.c:49-89 | The header put before a payload is the one its fields have in that layout. |
| `PayloadFormat.ControlFixed` | network.c:156-183 | The six words of a control header are put in host order, and the packet is for the tunnel and call they name. |
| `PayloadFormat.SecondByteDecides` | network.c:163-171 | The test for a control header looks at the second byte of the packet: with its high bit set twelve bytes are put in host order. |
| `AddressPool.VerdictIsLast` | aaa.c:117-125 | The status loop computes the verdict of the last matching range. |
| `AddressPool.LaterDecide` | aaa.c:110-128 | For an address of an allowing range, the ranges after it decide whether it is allowed by all. |
| `AddressPool.AllowedAfterRound` | aaa.c:110-128 | An address offered after the counter went round is allowed by all ranges if and only if a later range holds it or the ranges before allow it. |
| `AddressPool.ChosenIsFree` | aaa.c:103-134 | The address chosen is free and allowed if and only if it is in the range searched, or the search went round to one that other ranges allow. |
| `AddressPool.OutsideExample` | aaa.c:111-130 | A search that goes round and gives an address no range allows, with nothing free. |
| `AddressPool.EndlessExample` | aaa.c:111-130 | A search that does not end. |
| `AddressPool.Pool.constructor` | aaa.c:30-35 | The table starts as the empty set. |
| `AddressPool.Pool.IpUsed` | aaa.c:37-48 | True exactly for the addresses of the set. |
| `AddressPool.Pool.Reserve` | aaa.c:60-72 | The set gains the address. |
| `AddressPool.Pool.Unreserve` | aaa.c:74-101 | The set loses the address. |
| `AddressPool.Pool.SearchRange` | aaa.c:110-130 | The first address a range offers, round the end of the address space if it must, or that it offers none and whether it then ends. |
| `AddressPool.Pool.GetAddr` | aaa.c:103-134 | It does not return if and only if it comes to a range up to the last address that offers nothing; a result other than 0 is the one chosen and not in use; 0 only if nothing is free or 0.0.0.0 was chosen, and if and only if so when no search goes round. |
| `DaemonSafety.DestroyCallKeeps` | call.c:379-489 | Destroying a call keeps all invariants and queues nothing but a redial. |
| `DaemonSafety.DestroyCallsEmpties` | xl2tpd.c:628-637 | Destroying the calls of a tunnel empties its list and changes no other tunnel. |
| `DaemonSafety.DestroyTunnelKeeps` | xl2tpd.c:604-703 | Destroying a tunnel with nothing queued for it keeps all invariants. |
| `DaemonSafety.SweepKeeps` | call.c:231-263 | The sweep leaves nothing queued for the tunnel and frees each buffer it takes once. |
| `DaemonSafety.SendKeeps` | network.c:263-281 | A new message adds at most its own first retransmission. |
| `DaemonSafety.CloseCallKeeps` | call.c:325-376 | Closing a call, for the first time or again, keeps all invariants. |
| `DaemonSafety.CloseTunnelKeeps` | call.c:222-324 | After the first close at most the StopCCN is queued for the tunnel; after the second nothing is, and it is off the list. |
| `DaemonSafety.CallCloseKeeps` | call.c:208-377 | Every close keeps all invariants. |
| `DaemonSafety.RetransmitKeeps` | network.c:199-282 | Tossing, resending and giving up keep all invariants, the buffer in hand being freed or queued once. |
| `DaemonSafety.SayHelloKeeps` | control.c:122-147 | So does a Hello. |
| `DaemonEffects.SendQueues` | network.c:199-282 | A new message has the next number, and its first retransmission is queued for a second later unless it has been acknowledged; nothing else changes. |
| `DaemonEffects.HelloQueues` | control.c:122-147 | A Hello is such a message, and the next one is due a minute later. |
| `DaemonEffects.RedialExactly` | call.c:470-484 | A dialled connection that goes down is dialled again after its timeout, if and only if it is active, to be redialled, has a timeout and is not waiting for that already. |
| `DaemonEffects.CloseCallFirst` | call.c:325-376 | The first close of a call sends a message, whose number it notes, and marks the call; other records stay. |
| `DaemonEffects.CloseCallAgain` | call.c:379-489 | The second takes it off the list and gives its address back; other calls and tunnels stay. |
| `DaemonEffects.CloseTunnelFirst` | call.c:222-324 | The first close of a tunnel leaves its own record, marked, with the number of the one message queued for it; its calls are gone and their addresses free. |
| `DaemonEffects.CloseTunnelAgain` | xl2tpd.c:604-703 | The second leaves nothing of it. |
| `DaemonEffects.AcknowledgedIsFreed` | network.c:221-234 | A message whose timer runs after its acknowledgement is freed, and nothing else happens. |
| `DaemonEffects.ResentWhileAllowed` | network.c:263-281 | One that has gone out fewer times than allowed goes out again and is queued for after the next pause, and nothing else happens. |
| `DaemonEffects.GivenUpAtTheEnd` | network.c:235-262 | Otherwise the tunnel is closed as by its first close, or is gone if it was being closed. |
| `DaemonRuns.AddTunnelKeeps` | call.c:667-684 | A new tunnel keeps all invariants. |
| `DaemonRuns.AddCallKeeps` | avp.c:323-331 | A new call keeps all invariants. |
| `DaemonRuns.FireKeeps` | scheduler.c:37-49 | Running the first event of the queue keeps all invariants. |
| `DaemonRuns.FiredHello` | control.c:122-147 | A Hello that is due numbers a message, and the next Hello is due in a minute. |
| `DaemonRuns.FiredMessage` | network.c:263-281 | A message that is due, is not acknowledged and may go out again is queued for after the next pause, and nothing else changes. |
| `DaemonRuns.FiredDial` | xl2tpd.c:825-839 | A redial that is due is no longer waited for, if the connection is still active. |
| `DaemonRuns.ReserveKeeps` | control.c:773-786 | Giving a call a free address or none, whatever it had, keeps all invariants. |
| `DaemonRuns.StepKeepsInv` | network.c:477-505 | Every action of the main loop keeps all invariants. |
| `DaemonRuns.EveryRun` | call.c:208-489 | In every reachable state counters are list lengths, queued work is for listed tunnels, each buffer made is queued or freed exactly once, and each reserved address belongs to exactly one call or is lost. |
| `DaemonRuns.HeldExactlyWhenGivenOnce` | control.c:722-786 | In every run each reserved address belongs to a call, if and only if every assignment was to a call without one. |
| `DaemonRuns.LostForGood` | aaa.c:74-101 | An address that is lost stays reserved, and no call gets it in any continuation. |
| `DaemonRuns.ReassignedIsLost` | control.c:722-786 | A run in which the only address is lost. |
| `DaemonRuns.RunExtends` | xl2tpd.c:604-703 | Any action possible in a reached state can be taken: no action of the model needs a record that has been freed. What the main loop reads of a call after its packet is in `OwnCallFreed`. |
| `DaemonRuns.PacketFrees` | control.c:721-815 | What is done at the end of a message that asks for a call or connects one is a run of the daemon, and frees no call but the one the message is about, that one if and only if it is refused while already closing. |
| `DaemonRuns.OwnCallFreed` | network.c:663-673 | The call a packet came in on is gone after it, if and only if it was closing and is the one the message is about and refuses. |
| `DaemonRuns.AskedIsAnswered` | control.c:762-815 | A call that is asked for and not refused has the address found for it, or none if none is to be given, and a message has been numbered. |
| `DaemonRuns.AskedTwiceIsDropped` | control.c:743-757 | One that is asked for twice is marked closed, and nothing else happens. |
| `MainLoop.Detach` | call.c:446-468 | The walk to a list node and past it removes its first occurrence, if any. |
| `MainLoop.Unqueue` | call.c:231-263 | The walk over the queue keeps what is not the tunnel's and collects its buffers. |
| `MainLoop.Server.SendNew` | network.c:221-281 | Numbering and first transmission, in place. |
| `MainLoop.Server.Destroy` | call.c:379-489 | Destruction of a call, in place. |
| `MainLoop.Server.DestroyWhole` | xl2tpd.c:604-703 | Destruction of a tunnel, in place. |
| `MainLoop.Server.CloseWhole` | call.c:222-324 | Closing of a tunnel, in place. |
| `MainLoop.Server.CloseOne` | call.c:208-377 | Closing of a call or tunnel, in place. |
| `MainLoop.Server.Retry` | network.c:199-282 | A run of the transmit timer, in place. |
| `MainLoop.CallCloseClosesDown` | call.c:208-377 | A close touches the flags of no other record, and the record itself is gone or closing. |
| `MainLoop.ClosedDownShrinks` | network.c:401-408 | So closing a waiting record makes strictly fewer waiting ones. |
| `MainLoop.Server.CloseListed` | network.c:398-419 | The restarting loop over the calls of a tunnel ends with none waiting, and the tunnel still listed. |
| `MainLoop.Server.BuildFdset` | network.c:382-437 | The restarting pass over all lists ends, closes only records that wait for it, and leaves none waiting. |
| `WalkEffects.WalkSteady` | avp.c:1631-1818 | No packet whatsoever moves a state or stops a close. |
| `WalkEffects.WalkKeeps` | avp.c:136-313 | A packet in which every Message Type that fails its check has its M bit set changes the stored reply or host name only in the states that await them, and is accepted only with a message the state allows. |
| `WalkEffects.HeededFindsCall` | avp.c:136-331 | Nor does such a packet write to a call that is not there, or ask for one that will not be. |
| `WalkEffects.WalkNamed` | avp.c:846-859 | For every packet and session, no name is logged from outside the table, if and only if every handler that runs is for the message or the message is in the table. |
| `WalkEffects.HeededIsNamed` | avp.c:136-171 | A packet as in `WalkKeeps` that begins with a Message Type whose handler runs, or ends there, has none logged from outside it. |
| `WalkEffects.NamelessIsHeeded` | avp.c:1657-1679 | The seven bytes without a Message Type meet the premise of `WalkKeeps` and leave the table: the beginning is needed. |
| `UnmarkedTypes.AllowedExactlyWhenPassed` | avp.c:1771-1790 | Whatever the packet, if it is accepted and leaves the call open, the message acted on is one the state allows if and only if the last Message Type in it passed its check. |
| `TunnelAuth.FinishKeepsSound` | control.c:377-720 | Finishing any allowed message keeps the authentication invariant. |
| `TunnelAuth.EstablishedIsProven` | control.c:570-591 | Whatever packets arrive, as long as no Message Type fails its check under a clear M bit, an established tunnel that is not closing, whose entry asks for a challenge, holds the digest of message type, shared secret and challenge. |
| `TunnelAuth.EventSurvives` | control.c:217-1178 | Under the same premise, one packet is survived if and only if no access of its parse is to what is not there and, if it is accepted on a call, that call has the entries its message uses: the LAC entry for an ICRP with a number or an OCCN, the LNS entries of call and tunnel for an ICCN. |
| `TunnelAuth.LedIsFine` | avp.c:1631-1818 | The parse of a packet that begins with a Message Type, in a buffer with five bytes to spare, makes no such access under that premise. |
| `TunnelAuth.CheckedSurvives` | control.c:217-1178 | Under the same premise, a run of any packets makes no access to what is not there, if and only if each of its packets meets the condition of `EventSurvives` when it arrives. |
| `Handshake.RequestAnswered` | control.c:377-520 | For every tunnel about to be asked for, a request is answered if and only if it names its sender's end, and its sender if that matters, an entry is found, no other tunnel is like it, and there is a secret if one is needed; the reply then expected is the digest of 3, secret and challenge. |
| `Handshake.RequestDoes` | control.c:382-513 | Any request, whatever attributes it had: it is also refused without a framing capability or a positive identifier. |
| `Handshake.ReplyAnswered` | control.c:523-604 | The answer to our request establishes the tunnel if and only if it names its sender, its reply is the digest of 2, secret and our challenge if there is one, and there is a secret to answer the peer's with; otherwise the tunnel is to be closed. |
| `Handshake.ReplyDoes` | control.c:528-604 | Any answer to ours, likewise. |
| `Handshake.ConnectedAnswered` | control.c:646-660 | An SCCCN establishes it if and only if the reply is the expected one, when a challenge asked for it; otherwise the tunnel is to be closed. |
| `Handshake.HandshakeCompletes` | control.c:377-679 | Two daemons that exchange SCCRQ, SCCRP and SCCCN end with an established tunnel on both sides if and only if each challenge there is gets the answer expected, and then each knows the other's identifier. |
| `Handshake.SharedSecretDecides` | aaa.c:220-295 | So a shared secret is enough; without one, when anybody challenges, the tunnel is established only if the hash collides. |
| `Handshake.ResponseTellsSecret` | aaa.c:275-280 | Answers to one challenge are equal if and only if the secrets are, or the hash collides. |
| `Handshake.Respond` | aaa.c:275-280 | The response worked out by the streaming MD5 is the digest of message type, secret and challenge. |
| `Handshake.InitiateStarts` | control.c:219-288 | A tunnel we ask for waits for an answer, with a fresh challenge if its entry wants one. |
| `Handshake.StopCloses` | control.c:682-719 | A StopCCN closes the tunnel for good, whatever its state, if and only if it names it or the peer has no identifier yet; otherwise nothing changes. |
| `Handshake.NamesOursExactly` | control.c:691-696 | The peers that name tunnels and calls by our identifiers are those of one vendor name and firmware. |
| `Handshake.DisconnectCloses` | control.c:1112-1167 | A CDN on a call closes that call for good if and only if it names it. |
| `Handshake.DisconnectOnTunnel` | control.c:1121-1167 | On the tunnel, a CDN that names one of the calls closes the tunnel. |
| `Handshake.HelloKeeps` | control.c:1168-1169 | A Hello changes nothing. |
| `Handshake.ClosingEvents` | call.h:61-70 | What takes a running tunnel down, and when one that was asked to close is done with. |
| `Handshake.AnswerConnects` | control.c:817-833 | An ICRP connects the call that was asked for, under the peer's identifier and with the framing both can do. |
| `Handshake.UnnumberedAnswer` | control.c:818-826 | An ICRP without a number asks for its call to be closed, and an ICCN on the tunnel itself does nothing. |
| `Handshake.ConnectionConnects` | control.c:957-985 | An ICCN connects the call the peer asked for, with the speeds and framing it says. |
| `UnmarkedTypes.UnmarkedTypeEstablishes` | control.c:523-645 | For every tunnel about to be asked for, an SCCRP with the M bit clear, a framing capability and a tunnel identifier establish it without a challenge or a secret. |
| `UnmarkedTypes.UnmarkedTypeRenames` | avp.c:1771-1790 | In every established tunnel, one packet with an SCCRQ whose M bit is clear puts any other host name in the place of the proven one. |
| `UnmarkedTypes.EstablishedAtOnce` | control.c:523-679 | One packet establishes a tunnel about to be asked for only if its last Message Type failed its check. |
| `UnmarkedTypes.UnmarkedConnectedDies` | control.c:646-665 | For every tunnel about to be asked for, an SCCCN with the M bit clear ends in a read through the LNS entry it does not have. |
| `UnmarkedTypes.UnmarkedRequestIsNull` | avp.c:1315-1318 | On a tunnel that is not established and has no calls, an ICRQ with the M bit clear and a call identifier, 16 bytes, are written to a call that is not there, whatever is behind them. |
| `UnmarkedTypes.UnmarkedTypeIsUnnamed` | avp.c:846-859 | In every session a Message Type above 16 with the M bit clear and an empty Host Name, 14 bytes, have a name logged from outside the table, whatever is behind them. |
| `UnmarkedTypes.UnenteredAnswerDies` | control.c:866-945 | On every established tunnel, a call placed without a LAC entry and answered with the ICRP the daemon itself sends ends in a read through that entry. |
| `UnmarkedTypes.UnmarkedRequestReuses` | avp.c:1315-1318 | On a call, the same packet is accepted, creates nothing, and changes the identifier of the first call. |
| `TunnelAuth.StaysDown` | call.h:61-70 | No packet, timer or close brings a record back to the running state. |
| `TunnelAuth.NeverRunsAgain` | call.h:61-70 | Nor does any run of them. |
| `TunnelAuth.Record.HandleChallenge` | aaa.c:220-295 | The expected reply for the challenge in hand, the digest of message type, secret and challenge, or nothing without an entry or a secret. |
| `TunnelAuth.Record.OnRequest` | control.c:377-513 | Answering a tunnel request, in place. |
| `TunnelAuth.Record.OnReply` | control.c:523-604 | Checking the answer to ours, in place. |
| `TunnelAuth.Record.ControlFinish` | control.c:217-1178 | Finishing a message of any type on the tunnel or a call, in place, with the reads through missing entries there are; what each message achieves is in `Handshake`. |
| `TunnelAuth.Record.HandleMessage` | control.c:1820-1829 | A control message on the tunnel, attributes and all, in place, as the step of a run, which ends the daemon at any access to what is not there. |
| `Agreement.StoredIsParsed` | avp.c:1256-1326 | For every letter, sent as a packet: the side heeds it exactly when its parser accepts it, and the tunnel and call identifiers it then holds are those the parser read. |
| `Agreement.StepKeeps` | control.c:721-862 | Every step of either side keeps what the letters and records of both say of each other. |
| `Agreement.IdsAgree` | control.c:377-862 | An established side knows the other's tunnel identifier, and each end of a connected call names the other end, in every run. |
| `Agreement.CallComesUp` | control.c:377-985 | Whatever the messages hold, if both sides accept them there is a run in which the tunnel comes up on both and a call whose ends know each other. |

## Left out

- Sockets, ancillary data, IPsec references and the kernel data path: input and output. Sending is adding a packet to the network.
- `start_pppd`, pseudo terminals, signals and pppd options: process plumbing. A dying child is an action that sets the flags of a call.
- Sequenced session data beyond the in-place header expansion: the source calls it broken, and it compares with the wrong counter.
- Outgoing calls (OCRQ, OCRP, OCCN) as messages of the daemon: the receiving side refuses the request. Their effect on the attribute handlers is modelled.
- Simultaneous open and tie breakers: not implemented in the source.
- `local ip range`: the address lives on a record shared by all calls. The address invariants are for configurations without it.
- `get_lns`: the choice of the peer's configuration is a parameter of `TunnelAuth`.
- Configuration and secrets files, the control pipe, logging, statistics and entropy: string handling, or nothing to prove. Random bytes and the clock are parameters.
- `MD5Transform`: any function of chaining value and block stands for it, so no property depends on it.
- The receive window: stored and never used by the source.
- The descriptor sets that `build_fdset` collects on its way: input and output.
- Back pointers from dialling records to tunnels and calls, and the retry limits of dialling: only the redial event of a destroyed tunnel or call is modelled.
- Failing memory allocation.
- The control channel is proved for `max_retries` of at least 1; with 0 the first transmission already gives a message up. The same premise makes a first transmission in `Daemon` always queue or toss its buffer.
- `Endpoint.Tunnel.CheckControl`: packets shorter than the 12 bytes of a control header are refused before anything else and are not packets of the model.
- `Channel.ReliableDelivery`: for fewer than 65,536 numbers and no number used up by a zero-length body for an unknown call; `PrefixExactlyBelowWrap` and `FaithfulUnlessSkipped` show that neither can be dropped. A packet is handled after the pass has closed what waits to be closed.
- `Keepalive.SilentPeerIsDropped`: time is in whole seconds, as all delays here are, and timers run on time.
- `Scheduler.Queue.ProcessSchedule`: for a clock that stands still during the pass; the source reads it before each event.
- `HiddenAvp.EncryptAvp`: the padding is whatever the buffer holds behind the value, as in the source.
- `AvpParser.HandleAvps`: what an access past the buffer, through a null pointer or outside the table of names does is not modelled; the walk ends there. A name in the table that is null (types 0, 5 and 13) is printed as such. The debug options of the configuration file are off: with `debug state`, `control_finish` logs the name of every message in the same way (control.c:213-216).
- `AvpMessages.MessageRoundTrip`: names come back cut to 119 bytes and at a zero byte, error codes as `ErrorCodeKept` says; result codes are in the range the receiver keeps.
- `AddressPool.Pool.GetAddr`: a search without end is reported by a result of its own; chains of the hash table are sequences.
- `DaemonRuns.EveryRun`: linked lists are sequences of handles and freed records are handles taken out of a map. An assignment on a tunnel without calls reads through a null pointer and is not a step.
- `TunnelAuth.EstablishedIsProven`: one way only; a Message Type that fails its check under a clear M bit breaks it in `UnmarkedTypeEstablishes` and `UnmarkedTypeRenames`, and does no harm in other packets. What it does to each packet is exact in `AllowedExactlyWhenPassed`.
- `Fcs.AddFcs`: if only one of the two bytes is inside the buffer neither is stored; what the other overwrites is not modelled.
- `Ppp.Reader.Handle`: a store behind the buffer is reported and not done; what it overwrites is not modelled.
- `TunnelAuth.CheckedSurvives`: for packets in which no Message Type fails its check under a clear M bit; others are in `UnmarkedTypes`. A packet handled after an access to what is not there is not modelled.
- `DaemonRuns.OwnCallFreed`: the checks that refuse a call (entry, number, duplicate, address) are parameters of the ending; `TunnelAuth` and `UnmarkedTypes` say which packets lead there.
- `Handshake.HandshakeCompletes`: for daemons that name themselves and their end of the tunnel, with an entry for the peer and no second tunnel like it; `RequestAnswered` and `ReplyAnswered` say what each of these is needed for.
- `ChannelProgress.MessageGoesThrough`: for packets addressed to each other and a sender that has received all the peer has sent; an acknowledgement that comes before a missing message is not looked at (control.c:1217-1255).
- `TunnelAuth.Record.ControlFinish`: what a message does to calls other than the one it came in on is in `Daemon`; starting pppd is not modelled.
- `Agreement.IdsAgree`: for local call identifiers that are nonzero and not used twice, which the source draws at random without checking; messages are processed as `Channel.ReliableDelivery` says they arrive. Both sides are values, since the point is the protocol; `TunnelAuth.Record` has the tunnel part in place.
- `Payload.PayloadSurvives`: for packets of less than 65,536 bytes, as every UDP packet is.
