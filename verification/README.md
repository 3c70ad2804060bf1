# A verified model of the TCP stack and the RIP router

The repository is a user-space network node in Go: `pkg/tcpstack` is a TCP, `pkg/ipstack` an IP
layer that forwards by a table and fills the table by RIP. This project models both as state
machines in Dafny 4.11 and proves what they keep over every run.

`dafny verify dfyconfig.toml` checks everything.

## How it is laid out

TCP:

- `Tcp.dfy`: what each handler, user call and timer expiry does to one connection, as functions on
  values. `NormalSocket.dfy` has the same operations in place, as a class whose methods are proved
  against those functions. `TcpTable.dfy` and `TcpStack.dfy` are the connection table and the
  packet dispatch in place.
- `Endpoint.dfy`: one endpoint against any network. `Reassembly.dfy`, `Delivery.dfy`: what it makes of
  data. `Rto.dfy`, `Retransmission.dfy`: the timeout, and what is sent again. `FinNumbers.dfy`: what
  becomes of the FIN.
- `StreamSafety.dfy`, `Acknowledgement.dfy`, `FlowControl.dfy`, `Coverage.dfy`, `Handshake.dfy`,
  `TwoPartyClose.dfy` (and `TwoSides.dfy`, which some of them share): two endpoints over a network.
  Segments are never taken out of the network, so delivering one never, late, or many times are all
  runs of the model. Only in `FlowControl.dfy` and `Coverage.dfy` do acknowledgements stay in order,
  loss allowed.
- `GivenUpProbe.dfy`, `FlowFailures.dfy`: runs, step by step from the start, that end where a promise
  is broken.
- `Lifecycle.dfy`: a whole stack, over runs of packets, user calls and timers.
- `Checksum.dfy`, `Wire.dfy`: the checksum and the byte formats.

IP:

- `Forwarding.dfy`: the forwarding table, longest-prefix match and the timeout sweep.
- `Rip.dfy`, `RouteAging.dfy`: one router. `RipNetwork.dfy`: any graph of routers, an asynchronous
  Bellman-Ford with timeout sweeps at any moment; `RipBacking.dfy`: when its routes run into no
  loops, and `RoutingLoop.dfy`: a run after which they do; `RipConvergence.dfy`: its rounds.
- `IpForwarding.dfy`: the way of a packet through nodes.

`Bytes.dfy`, `Addresses.dfy` and `Slices.dfy` hold machine words, addresses and prefixes, and Go slices.

Machine arithmetic is explicit: sequence numbers wrap at 2^32, and the free window is a uint16
subtraction. Durations are nanoseconds, as in `time.Duration`.

The ring buffers are bounded byte sequences. A blocking write stores every byte: what does not fit
goes to the reader, who must have taken it before the write can return. `accepted` and `taken`
record what the application has written and read.

## What holds, and what does not

The two endpoints exchange byte streams safely, from what the handshake leaves behind
(`HandshakeStartsStream`) to the close of both (`StreamIsSafe`): what an application reads is a
prefix of what the other one has passed to VWrite (`WrittenIsRead`). On every graph RIP is sound in
every reachable state, sweeps included (`RoutesAreSound`), and converges from every reachable state
on while no sweep happens (`RipConverges`; with static routes to RIP neighbours and unpoisoned
answers it asks more, see its row). It is loop free only as long as the sweeps allow it, see below.

Where a promise fails for some inputs, the model keeps the code's behaviour and says exactly when it
fails, except where this list says that only one direction is proved:

- **Given-up probes.** After thirty zero-window probes the probed byte is gone from the buffer, but
  NXT has not passed it, so later bytes go out one number too low. Numbers, buffers and logs agree
  throughout a run exactly if no probe gives up in it (`ProbeFinishKeepsIff`, `AlwaysSafeIff`). VWrite
  reports an error at that point, but the connection can still be written to: there is a run from the
  client's first SYN on after which the client has received [2] of [1, 2] (`GivenUpProbeCorrupts`).
- **Lost length.** A retransmitted packet loses its length, so that an acknowledgement that ends just
  before it removes it from the list. All unacknowledged segments are in flight throughout a run
  exactly if no acknowledgement is accepted while a packet without a length has its number
  (`NothingUnackedIsForgottenIff`). For the side that opened the connection, one retransmission between
  accepted acknowledgements is harmless (`OneAtATimeIsSafe`) and two can forget a segment
  (`TwoRetransmissionsForget`). For the side that accepted it, one is enough: its UNA has not passed
  its SYN, so that a duplicate acknowledgement counts as new (`OneRetransmissionForgets`).
- **Overrun window.** When the sender has forgotten all it had in flight, acknowledgements no longer
  move UNA, but their windows are still taken. The window holds throughout a run exactly if each such
  window has room for what UNA has left behind (`FlowIsControlledIff`). Otherwise the uint16
  subtraction wraps: there is a run from the start after which a segment ends 900 bytes beyond the
  receiver's window (`WindowIsOverrun`).
- **Round-trip samples.** `computeRTO` is given the send time as the receive time. A sample is 0
  exactly if the first packet in flight of that number was sent at the same time
  (`SampleIsZeroIff`). Until VClose, if the SYN-ACK acknowledges just the SYN, it always was, so
  nothing is measured (`NothingIsMeasuredBeforeClose`). The passive side's FIN may have the number
  of the first data segment, and then the time between the two is taken for the round-trip time
  (`FinIsMeasured`). The README of the repository says the timer follows the RFC.
- **SYN with ACK.** A SYN to a listener that also carries an ACK puts the child on the accept queue at
  once, and the end of the handshake does so again: a socket is queued twice exactly if both happen
  (`QueuedTwiceIff`), as in the run of `SynWithAckAcceptsTwice`.
- **Old ACKs at the close.** In FIN_WAIT_1 any ACK counts as that of the FIN. Every run of the close is
  orderly exactly if no ACK is outstanding when it begins and no data in flight, which carries one, can
  be sent again (`CloseIsOrderlyIff`).
- **Lost FIN.** VClose numbers its FIN by SeqNum, and the timer sends only packets at or above UNA
  again. On the side that opened the connection SeqNum is below UNA, so that its FIN is never sent
  again (`OpenersFinIsNotResent`); with nothing else in flight, a FIN is sent again exactly if its number
  is not below UNA (`FinIsResentIff`).
- **Window of a retransmission.** Data is put in flight without a window, and what is sent again
  advertises a window of 0, after which an established peer can send no data until the next segment
  (`ResentDataClosesWindow`).
- **Simultaneous close.** The code says it does not support it; both sides then stay in FIN_WAIT_1 for
  ever (`SimultaneousCloseIsStuck`). Only this direction is proved, not that every other close can end.
- **Routes are never refreshed.** `Lookup` returns the address of a loop copy, so the writes in
  `ProcessRIPResponse` do not reach the table. Over any run of responses a route changes exactly if one
  of them betters its metric (`RefreshedOnlyByBetter`): its own next hop neither refreshes it, nor makes
  it worse, nor withdraws it, and a route that is confirmed all the time expires all the same
  (`ConfirmedRouteExpires`).
- **Swept routes.** A sweep may remove a route that a neighbour has learned. Next hops lead to shorter
  routes in every state of a run exactly if no sweep in it removes a route that another router's next
  hop, or a message still under way, relies on (`RoutesAreBackedIff`); then there are no loops
  (`NextHopsDescend`). Otherwise there may be: three updates, a sweep and one more update end with
  three routers forwarding in a circle (`SweepMakesLoop`).
- **Poison reverse and static routes.** A static route through a RIP neighbour is poisoned towards that
  neighbour, which may have no other. Poison reverse loses nothing exactly if no poisoned entry of such
  a prefix would have been a better route there (`PoisonLosesNothingIff`).
- **The sweep skips.** A removal shifts the array under the range, so a route that expired right behind
  another is left for the next sweep, unless it is the last one (`SweepClearsIff`).
- **Long messages.** The count of a RIP message is a uint16, so lists of 65536 or more entries are cut
  (`RipRoundTripIff`), and a message of such a list is taken without the entries beyond the count
  (`TruncationRejectedIff`). The checksum of more than IP can carry verifies exactly if its uint32 sum does
  not wrap (`ChecksumVerifiesIff`).

## Model

| member | source | states |
|---|---|---|
| StreamSafety.StreamIsSafe | pkg/tcpstack/normal_socket.go:166-338 | Both directions at once, from the handshake, the server perhaps still in SYN_RECEIVED, to the close of both sides, over any run of writes, sends, probes (none given up), retransmissions, arrivals (lost, duplicated, reordered), reads, VClose calls and the end of TIME_WAIT: bytes read plus receive buffer are a prefix of the bytes the peer wrote, and every data segment ever sent carries the bytes written at its number |
| StreamSafety.WrittenIsRead | pkg/tcpstack/normal_socket.go:181-195 | Over the same runs, the application of each side passing its data to VWrite in calls of any length: bytes read plus receive buffer are a prefix of the data the other application has, and each side has accepted all of its data but what is left to pass |
| StreamSafety.WritesAddUp | pkg/tcpstack/normal_socket.go:181-195 | Over any run, what a side has accepted and what its VWrite calls have left to pass make up all the data, in order, however full the buffer was |
| StreamSafety.AcceptTakesPrefix | pkg/tcpstack/normal_socket.go:183-195 | A TryWrite that returns n has taken the first n bytes, and the rest is what VWrite goes on with |
| StreamSafety.StepKeepsSafeIff | pkg/tcpstack/handle.go:241-400 | A step of either endpoint, in any state from the handshake to CLOSED, keeps the invariant behind that if and only if it is not the end of a failed probe |
| StreamSafety.AlwaysSafeIff | pkg/tcpstack/normal_socket.go:297-338 | Over whole runs: numbers, buffers and logs agree in every state if and only if no probe gives up in the run |
| StreamSafety.ArriveKeeps | pkg/tcpstack/handle.go:241-400 | A segment of the peer's stream, also one that ends the handshake and loses its payload, or a FIN, keeps the receiver on that stream and does not disturb what this side has numbered |
| StreamSafety.SendKeeps | pkg/tcpstack/normal_socket.go:216-283 | A data segment is numbered so that it carries the written bytes at its number, and what is left in the buffer is what is not yet numbered |
| StreamSafety.ExpireKeeps | pkg/tcpstack/retransmission.go:27-86 | What is retransmitted is what was sent at that number |
| StreamSafety.ProbeFinishKeepsIff | pkg/tcpstack/normal_socket.go:297-338 | A probe keeps buffer and numbering together if and only if fewer than thirty probes were sent |
| StreamSafety.GivenUpProbeMisnumbers | pkg/tcpstack/normal_socket.go:330-332 | After a given-up probe whose byte differs from the next one, the next data segment carries bytes not written at its number |
| GivenUpProbe.GivenUpProbeCorrupts | pkg/tcpstack/normal_socket.go:297-338 | A run from the first SYN on, lost and retransmitted with window 0: thirty probes are lost, and the client then receives [2] while [1, 2] was written |
| Reassembly.DrainFaithful | pkg/tcpstack/handle.go:315-330 | The drain loop delivers only bytes of the stream, takes back none, and leaves no early segment starting at NXT |
| Reassembly.HandleDataFaithful | pkg/tcpstack/handle.go:269-347 | Data in or out of order keeps what is delivered a growing prefix of the stream |
| Reassembly.HandleDataTiled | pkg/tcpstack/handle.go:269-347 | For segments that tile a stream, delivery is always a whole number of segments, and no segment at or above NXT is forgotten |
| Delivery.InOrderIsDelivered | pkg/tcpstack/handle.go:49-74 | In ESTABLISHED, FIN_WAIT_1 and FIN_WAIT_2, data at NXT is delivered, with whatever waited for it, and answered by exactly one ACK of the new NXT with the free space of the buffer |
| Delivery.EarlyIsKept | pkg/tcpstack/handle.go:280-301 | In these states any other data is kept for later, delivers nothing, and is answered by exactly one ACK of the old NXT |
| Delivery.ReassemblyComplete | pkg/tcpstack/handle.go:49-74 | Over any run of the endpoint in ESTABLISHED, FIN_WAIT_1 and FIN_WAIT_2, up to the peer's FIN, with writes, reads, timers, ACKs and its own VClose in between: once each tile has arrived at least once, in any order and with duplicates, the whole stream is delivered and NXT is its end |
| Delivery.OrderIndependent | pkg/tcpstack/handle.go:276-347 | Two runs in which the same tiles arrive deliver the same bytes and the same NXT |
| Delivery.ReadTakes | pkg/tcpstack/normal_socket.go:398-407 | A read takes the next bytes delivered, as many as asked for unless the buffer runs empty, and the window becomes the free space |
| Delivery.ReadsHandOverIff | pkg/tcpstack/normal_socket.go:398-407 | Reads hand over everything delivered if and only if together they ask for at least as many bytes as the buffer holds |
| Acknowledgement.SentAcknowledges | pkg/tcpstack/normal_socket.go:247-262 | Every segment sent, data, probe, retransmission, FIN or reply, acknowledges exactly the RCV.NXT of its sender |
| Acknowledgement.AdvertisesFreeSpace | pkg/tcpstack/normal_socket.go:247-262 | Over any run of an endpoint: until it takes a FIN or has closed, whatever it sends except what is sent again advertises exactly the free space of its receive buffer |
| Acknowledgement.OnlyDeliveredIsAcknowledged | pkg/tcpstack/handle.go:367-400 | Over any run of both endpoints up to the first FIN that arrives, no probe given up: no acknowledgement in the network and no UNA is beyond what the peer has delivered |
| FlowControl.FlowIsControlledIff | pkg/tcpstack/normal_socket.go:216-294 | Whichever side sends, the receiver perhaps still in SYN_RECEIVED, over any run with any number of retransmissions: NXT-UNA fits WND and UNA+WND is at most the receiver's right edge in every state, if and only if no acknowledgement that finds nothing in flight brings a window too small for what UNA leaves behind |
| FlowControl.FlowIsControlled | pkg/tcpstack/normal_socket.go:216-294 | After such a run the uint16 subtraction is the true difference, the receiver's right edge has not moved left, and an in-order segment fits the receive buffer |
| Coverage.NothingUnackedIsForgottenIff | pkg/tcpstack/handle.go:378-421 | Whichever side sends, over any run with any number of retransmissions: every segment from UNA on is in flight in every state, if and only if no acknowledgement is accepted while a packet without a length has its number; the window then fits as well |
| Coverage.NothingUnackedIsForgotten | pkg/tcpstack/handle.go:378-421 | After such a run the in-flight packets, by number and data, are exactly the segments that make up UNA to NXT (UNA perhaps still at the SYN on the side that accepted the connection) |
| Coverage.OneAtATimeIsSafe | pkg/tcpstack/retransmission.go:27-86 | For the side that opened the connection, with at most one retransmission between accepted acknowledgements, no segment is ever forgotten and the window always fits |
| FlowFailures.WindowIsOverrun | pkg/tcpstack/normal_socket.go:223-245 | A run from the start, with two retransmissions, after which 535 bytes are unacknowledged in a window of 100, the subtraction gives 65101, and a segment ends 900 bytes beyond the receiver's window |
| FlowFailures.OneRetransmissionForgets | pkg/tcpstack/handle.go:378-421 | A run from the start of the side that accepted the connection: of two segments in flight the first is sent again once, and the duplicate acknowledgement then drops it, unacknowledged |
| Coverage.CoverageKeptIff | pkg/tcpstack/handle.go:402-421 | An acknowledgement at a segment boundary forgets no unacknowledged segment if and only if no packet without a length is numbered by it |
| Coverage.TwoRetransmissionsForget | pkg/tcpstack/retransmission.go:56-71 | With two packets in flight, two retransmissions and the acknowledgement of the first leave the second unacknowledged and forgotten |
| Coverage.ExpireTiles | pkg/tcpstack/retransmission.go:27-86 | Every retransmission, the first or a later one, leaves the list covering UNA to NXT |
| Coverage.AckTilesIff | pkg/tcpstack/handle.go:378-421 | An accepted acknowledgement moves UNA to the segment it names, and keeps the list covering the rest if and only if no packet without a length has its number |
| Coverage.SendTiles | pkg/tcpstack/normal_socket.go:266-283 | A new data segment extends the covered range to the new NXT |
| FlowControl.DataFits | pkg/tcpstack/handle.go:304-332 | When the whole tiling fits above what was read, in-order data never has to wait for the reader, and the window is the free space |
| FlowControl.StepKeepsIff | pkg/tcpstack/handle.go:367-400 | A step keeps the window invariant if and only if it is not an acknowledgement of that kind, and the receiver's right edge never moves left |
| FlowControl.AckEffect | pkg/tcpstack/handle.go:367-400 | A bare ACK in ESTABLISHED sets the window, and UNA exactly if something is in flight and it is news; an old one changes nothing else |
| Handshake.HandshakeAgrees | pkg/tcpstack/handle.go:114-266 | Over any loss and duplication of SYN, SYN-ACK and ACK, retransmissions included: when the client is established there is a child, and each side expects exactly the number the other sends next |
| Handshake.HandshakeStartsStream | pkg/tcpstack/handle.go:198-266 | As soon as the client is established, the server perhaps still in SYN_RECEIVED, the state left behind, late segments included, is a start of the data phase of StreamIsSafe |
| Handshake.HandshakeStartsFlow | pkg/tcpstack/handle.go:198-266 | The same state is a start of the runs of FlowIsControlled from client to server, and from server to client once the server is established and its window is open |
| Handshake.SynAckOpens | pkg/tcpstack/handle.go:198-240 | A SYN-ACK of any numbers and window sets UNA, NXT, WND and RCV.NXT from it, empties the in-flight list and is answered by one ACK |
| Handshake.CleanHandshake | pkg/tcpstack/handle.go:114-266 | If nothing is lost, three steps establish both ends, each with the whole buffer of the other as its window |
| TwoPartyClose.CloseIsOrderly | pkg/tcpstack/handle.go:423-489 | With data perhaps still in flight but no ACK outstanding at the start, over any loss, duplication, reordering and retransmission: a side in FIN_WAIT_2 or later has a peer that took its FIN, a side that took a FIN has a peer that sent it, and when the passive side is CLOSED the active one has reached TIME_WAIT |
| TwoPartyClose.CloseIsOrderlyIff | pkg/tcpstack/handle.go:465-489 | From any two established sides with no FIN or RST about, every run of the close is orderly in that sense if and only if no segment that carries an ACK is in the network or in flight when it begins |
| TwoPartyClose.ArrivalTable | pkg/tcpstack/handle.go:48-104 | The state table of the four-way close: the new state for every closing state and combination of FIN and ACK, and when a pure ACK answers |
| TwoPartyClose.StepKeeps | pkg/tcpstack/normal_socket.go:16-67 | Every VClose, arrival, expiry and end of TIME_WAIT, of either side, keeps the close invariant |
| TwoPartyClose.CloseNumbers | pkg/tcpstack/handle.go:423-441 | Over every run of such a close: each FIN has the number of its sender's socket, each ACK is of exactly the FIN of the other side, and its sender has taken that FIN |
| FinNumbers.OpenersFinIsNotResent | pkg/tcpstack/normal_socket.go:25-50 | After any handshake, and whatever the client then does and gets: no retransmission of its ever carries a FIN. The established server's SeqNum is one more than its UNA |
| FinNumbers.FinIsResentIff | pkg/tcpstack/retransmission.go:140-150 | After VClose with nothing else in flight, the timer sends the FIN again if and only if its number is not below UNA |
| TwoPartyClose.SimultaneousCloseIsStuck | pkg/tcpstack/handle.go:57-67 | Two sides in FIN_WAIT_1 stay there over every run |
| Lifecycle.StatesProgress | pkg/tcpstack/handle.go:21-111 | Over any run of packets, user calls (VWrite and VRead included) and timers, a connection climbs strictly ranked edges, so it changes state at most five times; CLOSING is never reached, and CLOSED is final |
| Lifecycle.HandleTakesAnEdge | pkg/tcpstack/handle.go:21-111 | One packet takes at most one edge of section 3.3.2 of RFC 9293 or RST to CLOSED; CLOSED exactly for RST, or ACK in LAST_ACK; and SYN_RECEIVED becomes ESTABLISHED exactly on an ACK without RST |
| Lifecycle.EventEffect | pkg/tcpstack/tcpstack.go:45-90 | One event changes the table in at most one place: an update along one edge, a new last entry, or a removal that keeps the others in order |
| Lifecycle.ClosingRemovesExactly | pkg/tcpstack/handle.go:484-495 | The event that closes a connection removes its entry, and leaves all others as they were, in order |
| Lifecycle.NextKeeps | pkg/tcpstack/handle.go:114-163 | Every event keeps one entry per local port, remote address and remote port, with distinct sockets, and a listener for every connection in SYN_RECEIVED |
| Lifecycle.FindsItself | pkg/tcpstack/normal_socket.go:18-19 | In every reachable table, a connection looked up by its own addresses and ports is found at its own place |
| Lifecycle.AcceptStep | pkg/tcpstack/handle.go:248-253 | An event adds a connection to an accept queue once for each of two reasons: it moves it from SYN_RECEIVED to ESTABLISHED, or makes it from a SYN that carries an ACK; and never otherwise |
| Lifecycle.ChildAcceptedOnce | pkg/tcpstack/handle.go:241-253 | Over any run, a child that no queue holds yet is put on an accept queue exactly once, when it gets past SYN_RECEIVED |
| Lifecycle.QueuedTwiceIff | pkg/tcpstack/handle.go:114-266 | Over any run of a stack that starts empty, a socket is put on an accept queue at most twice, and twice if and only if its SYN carried an ACK and it was moved to ESTABLISHED later |
| Lifecycle.QueuedByItsListener | pkg/tcpstack/handle.go:241-253 | Over any run of a stack that starts empty, whatever was put on an accept queue was put on that of a listener still in the table, on the local port of the connection |
| Lifecycle.SynCreatesChild | pkg/tcpstack/handle.go:114-196 | A SYN that reaches a listener finds no other entry for its connection and makes one in SYN_RECEIVED, which no accept queue holds if and only if the SYN carries no ACK |
| Lifecycle.SynWithAckAcceptsTwice | pkg/tcpstack/handle.go:192-195 | The run of a VListen, a SYN with an ACK and the last ACK of the handshake puts the child on the queue twice |
| TcpTable.WithoutAt | pkg/tcpstack/tcpstack.go:55-63 | Deleting an entry of a table with distinct sockets removes exactly its place |
| TcpTable.Table.Insert | pkg/tcpstack/tcpstack.go:45-53 | The new entry is the last, the others are unchanged |
| TcpTable.Table.VFind | pkg/tcpstack/tcpstack.go:66-90 | The first full match; without any, the first listener on the port; otherwise not found |
| TcpTable.Table.Delete | pkg/tcpstack/tcpstack.go:55-63 | The loop that goes on ranging over the shifted array leaves exactly the entries other than the given one, in order |
| TcpStack.TCPStack.HandlePacket | pkg/tcpstack/handle.go:14-112 | In place, on the table: the new stack is that of Lifecycle.HandlePacket, it is again well formed, and the segments sent are those of the SYN-ACK or of the entry's handler; a packet for no entry changes and sends nothing |
| TcpStack.TCPStack.HandleSYN | pkg/tcpstack/handle.go:114-196 | In place: the child entry and the accept-queue send of Lifecycle.HandleSyn, and the SYN-ACK |
| TcpStack.TCPStack.HandleNormalPacket | pkg/tcpstack/handle.go:24-111 | In place: the socket's own handler, then the deletion or the promotion of the entry |
| TcpStack.TCPStack.PromoteChild | pkg/tcpstack/handle.go:248-253 | In place: the send to the accept queue of the listening parent, if one is found |
| NormalSocket.NormalSocket.HandlePacket | pkg/tcpstack/handle.go:24-111 | In place: state, socket and segments sent are those of Tcp.Handle, which the theorems are about |
| NormalSocket.NormalSocket.HandleEstablishedPacket | pkg/tcpstack/handle.go:367-400 | In place: window update, data, then a new cumulative acknowledgement, as in Tcp.HandleEstablished |
| NormalSocket.NormalSocket.HandleDataPacket | pkg/tcpstack/handle.go:269-302 | In place: in-order data is delivered, any other is kept early, and both are answered with an ACK |
| NormalSocket.NormalSocket.ProcessInOrderData | pkg/tcpstack/handle.go:304-347 | In place: the loop delivers exactly what Tcp.Drain does and sends one ACK for all of it |
| NormalSocket.NormalSocket.FindNextSequence | pkg/tcpstack/handle.go:349-356 | The first early segment with the number, or none |
| NormalSocket.NormalSocket.RemovePacket | pkg/tcpstack/handle.go:358-365 | The list without the first early segment of that number, the others in order |
| NormalSocket.NormalSocket.CleanUpInFlightPackets | pkg/tcpstack/handle.go:402-421 | In place: the list keeps exactly the packets that end above the acknowledgement, and each other one gives one sample, taken against the old list |
| NormalSocket.NormalSocket.HandleFINPacket | pkg/tcpstack/handle.go:423-463 | In place: RCV.NXT and RCV.WND overwritten, an ACK, clean-up, and the next state |
| NormalSocket.NormalSocket.HandleClosingACK | pkg/tcpstack/handle.go:465-489 | In place: RCV.WND overwritten, clean-up, and the next state |
| NormalSocket.NormalSocket.HandleSYNACK | pkg/tcpstack/handle.go:198-240 | In place: both halves set up from the SYN-ACK, in-flight list emptied, and an ACK |
| NormalSocket.NormalSocket.TrySendData | pkg/tcpstack/normal_socket.go:216-294 | In place: the loop up to its first wait or probe sends what Burst says |
| NormalSocket.BurstSendsPrefix | pkg/tcpstack/normal_socket.go:216-294 | The payloads sent are a prefix of the buffer, none over 1000 bytes, numbered back to back from NXT; it stops only when the buffer is empty, or the window is full or closed |
| NormalSocket.NormalSocket.TryWrite | pkg/tcpstack/normal_socket.go:181-186 | In place: as much of the data as the send buffer has room for is accepted, and data and rest make up what was given |
| NormalSocket.NormalSocket.SendZeroWindowProbe | pkg/tcpstack/normal_socket.go:297-338 | One byte leaves the buffer and is sent once per probe, up to the first open window or thirty times; NXT passes it only in fewer than thirty |
| NormalSocket.NormalSocket.RetransmitPacket | pkg/tcpstack/retransmission.go:27-86 | In place: the first packet at or above UNA is sent again and re-appended without its length, with the counter up and the timeout doubled; an error, and no change, after four |
| NormalSocket.NormalSocket.GetFirstUnackedPacket | pkg/tcpstack/retransmission.go:140-150 | The first packet of the list at or above UNA, or none |
| NormalSocket.NormalSocket.ComputeRTO | pkg/tcpstack/retransmission.go:88-136 | In place: one estimator update with the round-trip time measured against the first packet of that number |
| NormalSocket.NormalSocket.VRead | pkg/tcpstack/normal_socket.go:391-408 | In place: an error outside three states; it waits while the buffer is empty; otherwise what is returned and what is left make up the buffer as it was, fewer bytes than asked for only if nothing is left, and the window becomes the free space |
| NormalSocket.NormalSocket.VClose | pkg/tcpstack/normal_socket.go:16-67 | In place: refused without any change outside ESTABLISHED and CLOSE_WAIT, otherwise the FIN and the next state |
| Rto.SampleBounds | pkg/tcpstack/retransmission.go:110-129 | A sample in [0, M] keeps the truncated SRTT and RTTVAR in [0, M]; every sample leaves the timeout in [1s, 4s] |
| Rto.SampleWeights | pkg/tcpstack/retransmission.go:108-129 | The first sample sets SRTT to itself and RTTVAR to half of it; each later one moves SRTT by 1/8 of the way and RTTVAR by 1/4, rounded down; and the timeout is SRTT + 4 RTTVAR, held in [1s, 4s] |
| Rto.ConstantSamples | pkg/tcpstack/retransmission.go:108-119 | A round-trip time that stays the same is approached monotonically, and k samples leave at most (7/8)^k of the distance, up to the rounding |
| Rto.CleanUpBounds | pkg/tcpstack/handle.go:402-421 | The same over all samples of one acknowledgement |
| Rto.TimeoutInRange | pkg/tcpstack/retransmission.go:74-129 | In every state reachable from VConnect or from a SYN, whatever arrives and whatever the user does, the timeout is in [1s, 60s] and the retry counter at most 4 |
| Rto.BackOff | pkg/tcpstack/retransmission.go:74-83 | Over any run of an endpoint in which nothing in flight is acknowledged and k packets are retransmitted, the timeout becomes min(60s, r*2^k) and the counter grows by k, to at most 4 |
| Rto.OpeningBacksOff | pkg/tcpstack/normal_socket.go:87-103 | From VConnect or a SYN on, a SYN or SYN-ACK that nobody acknowledges is sent again after 1, 2, 4 and 8 seconds, and then no more |
| Rto.CounterCounts | pkg/tcpstack/handle.go:379-399 | Over any run the retry counter is the number of retransmissions since the last acknowledgement that was news |
| Rto.NewsMovesUna | pkg/tcpstack/handle.go:378-400 | An acknowledgement above UNA, with or without data, in ESTABLISHED or with data in FIN_WAIT_1 and FIN_WAIT_2, moves UNA to its number, keeps in flight exactly what ends above it, resets the counter and sets the window |
| Rto.CleansUp | pkg/tcpstack/handle.go:402-421 | On an ACK in the closing states or of the SYN-ACK, and on a FIN, exactly what ends above the acknowledgement stays in flight, whatever UNA is |
| Rto.MeasuresFirst | pkg/tcpstack/retransmission.go:99-106 | The round-trip time is against the first packet in flight of the number, and 0 without any |
| Retransmission.ResendsOldest | pkg/tcpstack/retransmission.go:27-86 | What is sent is the first packet at or above UNA, with its own window and the current RCV.NXT; it goes to the end of the list with the new time and no length, and the others stay |
| Retransmission.ResentDataClosesWindow | pkg/tcpstack/retransmission.go:40-48 | From VConnect or a SYN on, over any run: data that is sent again advertises a window of 0, and an established peer that gets it can send no data until another segment comes |
| Rto.SampleIsZeroIff | pkg/tcpstack/handle.go:411 | The sample of a packet is 0 if and only if the first packet in flight of its number was sent at the same time |
| Rto.EverySampleIsZero | pkg/tcpstack/handle.go:408-414 | While in-flight numbers are distinct and no estimate exists, an acknowledgement that takes a sample leaves both estimates 0 and the timeout 1s |
| Rto.NothingIsMeasured | pkg/tcpstack/retransmission.go:97-119 | From VConnect or a SYN on, whatever arrives: while no packet is put in flight under a number already in flight, the estimates stay 0, and every acknowledgement that removes a packet sets the timeout to 1s |
| Rto.NothingIsMeasuredBeforeClose | pkg/tcpstack/normal_socket.go:273-283 | Until VClose, and if the SYN-ACK acknowledges just the SYN, numbers in flight are always distinct, so that nothing is measured over any run |
| Rto.FinIsMeasured | pkg/tcpstack/normal_socket.go:42-48 | A run of the passive side whose FIN has the number of its first data segment: the acknowledgement of both sets SRTT to the two seconds between them, and the timeout to 4s |
| Checksum.ChecksumVerifiesIff | pkg/tcpstack/tcp_packet.go:58-96 | For every segment of at least 18 bytes of any length, writing the checksum into zeroed bytes 16 and 17 makes a recomputation return 0 if and only if the sum with it still fits 32 bits |
| Checksum.ChecksumVerifies | pkg/tcpstack/tcp_packet.go:58-96 | It does for every segment of 18 to 65535 bytes, odd lengths included |
| Checksum.SumFits | pkg/tcpstack/tcp_packet.go:84-87 | For every segment of at most 65535 bytes the uint32 sum is the true sum |
| Checksum.SumIsOverPseudoHeader | pkg/tcpstack/tcp_packet.go:58-81 | What is summed is both addresses, the protocol, the length and the segment, the last byte of an odd one as the high byte of its word |
| Checksum.FoldIsCongruent | pkg/tcpstack/tcp_packet.go:89-92 | The fold ends with a 16-bit value congruent to the sum modulo 65535, zero only for a zero sum |
| Checksum.ZeroIffMultiple | pkg/tcpstack/tcp_packet.go:83-96 | The checksum is 0 if and only if the sum of the words is a positive multiple of 65535 |
| Checksum.SumWords | pkg/tcpstack/tcp_packet.go:83-87 | The uint32 loop computes the sum of the 16-bit words modulo 2^32 |
| Checksum.ComputeChecksum | pkg/tcpstack/tcp_packet.go:58-96 | For every length, the two buffers and the two loops compute the complement of the folded uint32 sum over pseudo header, segment and padding |
| Wire.TcpRoundTripIff | pkg/tcpstack/tcp_packet.go:9-56 | Header (checksum zeroed) and payload of up to 1000 bytes are parsed back if and only if the data offset is 5 |
| Wire.SegmentLayout | pkg/tcpstack/tcp_packet.go:27-56 | Every header field at its place, the highest byte first, the checksum 0, and then the payload |
| Wire.SerializeTCPPacket | pkg/tcpstack/tcp_packet.go:27-56 | The buffer written by index holds the header fields in network order and then the payload; over 1000 bytes it is refused |
| Wire.RipRoundTripIff | pkg/ipstack/rippacket.go:29-101 | A RIP response is read back unchanged if and only if it has at most 65535 entries |
| Wire.RipRoundTrip | pkg/ipstack/routing.go:72-89 | For a list of any length, what is read back is its first (length modulo 65536) entries |
| Wire.ResponseLayout | pkg/ipstack/rippacket.go:29-60 | A response is command 2, the count, and for each entry cost, address and mask, 4 bytes each, the highest byte first |
| Wire.TruncationRejectedIff | pkg/ipstack/rippacket.go:62-101 | A truncation of a marshalled response of any length is an error if and only if it has not all the (length modulo 65536) entries that the message counts |
| Wire.TruncationRejected | pkg/ipstack/rippacket.go:62-101 | Every strict truncation of a marshalled response of at most 65535 entries is an error |
| Wire.TableRoundTrip | pkg/ipstack/routing.go:185-208 | The prefixes and metrics of a table come back in order from the message that advertises it |
| Wire.MarshalRIPMessage | pkg/ipstack/rippacket.go:29-60 | The loop writes command, count and entries in network order |
| Wire.UnmarshalRIPMessage | pkg/ipstack/rippacket.go:62-101 | The loop reads as many entries as the count says, or fails if the bytes run out |
| Forwarding.TableIsLeastMetricMap | pkg/ipstack/forwarding.go:55-97 | After any history of AddRoute and RemoveRoute, prefixes are distinct, and each maps to the first route of least metric offered since its last removal, if any was |
| Forwarding.ForwardingTable.NextHop | pkg/ipstack/forwarding.go:34-51 | The route with the most prefix bits of all that contain the address (ties: the first, but the last default route), or the empty result if and only if none does |
| Forwarding.LongestMatchIsOne | pkg/ipstack/forwarding.go:41-48 | At most one entry is the match that NextHop settles on |
| Forwarding.LongestMatchGrows | pkg/ipstack/forwarding.go:41-48 | One more route at the end of the table is chosen only if it contains the address and is longer than the match so far, or that is a default route; otherwise the match stays |
| Addresses.ContainsIff | pkg/ipstack/forwarding.go:42 | A prefix contains exactly the 2^(32-bits) addresses of the block its own address lies in |
| Addresses.LongerIsNarrower | pkg/ipstack/forwarding.go:42 | Length 0 contains every address, length 32 only its own, and a longer prefix of an address is part of every shorter one |
| Forwarding.ForwardingTable.Lookup | pkg/ipstack/forwarding.go:74-84 | A copy of the route of that prefix, or the zero route |
| Forwarding.ForwardingTable.AddRoute | pkg/ipstack/forwarding.go:55-71 | In place: replaces a route of the prefix only for a smaller metric, otherwise appends |
| Forwarding.ForwardingTable.RemoveRoute | pkg/ipstack/forwarding.go:87-97 | In place: the route is shifted out, and the slots beyond the table keep what they held |
| Forwarding.ForwardingTable.Sweep | pkg/ipstack/routing.go:221-227 | In place, ranging over the array that its own removals shift: leaves SweepResult of the table |
| Forwarding.SweepIsSound | pkg/ipstack/routing.go:221-227 | A sweep removes only expired RIP routes, keeps the survivors and their order, and removes at least one if any is expired |
| Forwarding.SweepKeepsRoutes | pkg/ipstack/routing.go:221-227 | For every prefix: a route that stays is unchanged, none appears, and one that goes is a RIP route last updated more than the timeout ago |
| Forwarding.SweepClearsIff | pkg/ipstack/routing.go:221-227 | One sweep removes every expired route if and only if none directly follows another, except in the last place |
| Forwarding.RepeatedSweepsClear | pkg/ipstack/routing.go:216-228 | As many sweeps as there are routes leave exactly the routes that have not expired, in order |
| Rip.ProcessBetter | pkg/ipstack/routing.go:92-137 | A response makes no route worse, and every entry below 16 hops is matched or bettered afterwards |
| Rip.ProcessOrigin | pkg/ipstack/routing.go:97-137 | A route of the new table is an old one or one learned from an entry at one hop more; a changed entry is no better than the table's route |
| Rip.LearnsLeastOffer | pkg/ipstack/routing.go:97-137 | For every prefix: if an entry betters it, its route is then through the source of the response and the interface for it, at one hop more than the least cost offered, updated now, and a changed entry tells of it; otherwise its route is unchanged and no changed entry is of it |
| Rip.PoisonKeepsPrefixes | pkg/ipstack/routing.go:153-173 | Poison reverse keeps length, order and prefixes, and the cost of an entry becomes 16 if its route is through that neighbour and stays otherwise |
| Rip.NotTaughtBack | pkg/ipstack/routing.go:153-173 | Whatever list is sent, the neighbour learns nothing of a prefix that the sender routes through it |
| Rip.PoisonIsHarmlessIff | pkg/ipstack/routing.go:153-173 | A neighbour processes the poisoned list to the same table and changes as the list itself if and only if no poisoned entry would have been a better route there |
| Rip.RefreshedIff | pkg/ipstack/routing.go:97-137 | A response of any entries changes a route of the table, the time of its last update included, if and only if it betters its metric; so confirming, worsening and cost 16 from its own next hop are lost |
| RouteAging.RefreshedOnlyByBetter | pkg/ipstack/routing.go:97-137 | Over any run of responses, a route is the same at the end if and only if none ever bettered it, and has a strictly smaller metric otherwise |
| RouteAging.UnbetteredStays | pkg/ipstack/routing.go:92-142 | Over any run of responses and sweeps that never betters it, a route stays exactly as it was until it is removed for good |
| RouteAging.ConfirmedRouteExpires | pkg/ipstack/routing.go:211-229 | Over any run of responses and sweeps: once the timeout has passed since a route was last bettered, enough sweeps remove it, however often its next hop confirms it |
| RouteAging.StampIsLastBettering | pkg/ipstack/routing.go:118-124 | Over any run of responses and sweeps, a route that was bettered in it is a RIP route last updated when it was last bettered; any other is as it was |
| RouteAging.BetteredRouteLives | pkg/ipstack/routing.go:221-227 | No sweep within the timeout of the response that has last bettered a route removes it or changes it |
| Rip.IPStack.ProcessRIPResponse | pkg/ipstack/routing.go:92-142 | In place: the table becomes that of Rip.Process, as Rip.LearnsLeastOffer says, and one poisoned triggered update goes to each neighbour if something changed |
| Rip.IPStack.ApplyPoisonReverse | pkg/ipstack/routing.go:153-173 | The loop gives Rip.Poison and drops no entry; only for the zero address does it drop the entries without a route |
| Rip.IPStack.GetAllRIPEntries | pkg/ipstack/routing.go:185-197 | The loop gives one entry per route, in order |
| Rip.IPStack.SendTriggeredUpdate | pkg/ipstack/routing.go:145-150 | One poisoned copy of the changed entries for each neighbour, in order |
| RipNetwork.RoutesAreSound | pkg/ipstack/routing.go:92-142 | On any graph, one-way neighbours included, with local and static routes, with responses delayed, duplicated, reordered and lost and with sweeps at any moment: a metric is below 16 and at least the true distance, and a RIP route came over a link from a router whose true distance is at most one less |
| RipBacking.NextHopsDescend | pkg/ipstack/forwarding.go:55-84 | After a run whose sweeps spare what is relied on, following next hops strictly descends and ends, within metric hops, at a router that holds the prefix as a local or a static route |
| RipBacking.NoLoopOfTwo | pkg/ipstack/routing.go:145-173 | After any run, sweeps included, of every periodic or triggered update: if it is delivered as soon as it is sent, then no route that its receiver learns from it is for a prefix that the sender routes back over the same link |
| RipBacking.EveryRouteIsTold | pkg/ipstack/routing.go:18-46 | A periodic update and the answer to a request tell of every route at its metric, the update a route's next hop at 16 |
| RipBacking.NewsIsToldOn | pkg/ipstack/routing.go:118-150 | A response that betters a route is told on over every link at once, at the new metric, or at 16 to the next hop |
| RoutingLoop.SweepMakesLoop | pkg/ipstack/routing.go:211-229 | A run of four routers with poisoned updates only and one sweep, after which router 1 forwards to 3, 3 to 2 and 2 to 1 |
| RipBacking.PoisonLosesNothingIff | pkg/ipstack/routing.go:145-173 | In a state whose routes are backed, and whenever it arrives, the neighbour not having swept in between, a poisoned list makes the same table and the same changes there as the list before poisoning, if and only if no entry would be a better route there for a prefix the sender statically routes through that neighbour |
| RipBacking.PoisonLosesNothing | pkg/ipstack/routing.go:145-173 | Where no static route leads to a RIP neighbour, and again with the neighbour not having swept in between, it always does |
| RipConvergence.RipConverges | pkg/ipstack/routing.go:92-150 | From any reachable state, after k rounds without a sweep and with anything else in between, every router holds every prefix at most min(k, 15) hops away at exactly that distance; where a static route leads to a RIP neighbour and requests are answered without poison reverse, at no more than that distance, provided that the sweeps before spared what was relied on |
| RipConvergence.RoundConverges | pkg/ipstack/routing.go:10-25 | One round of poisoned updates extends convergence by one hop |
| RipNetwork.StepSound | pkg/ipstack/routing.go:92-229 | Each send, answer, delivery and sweep keeps routes sound and messages no better than the true distance, and only a sweep makes a table worse |
| RipBacking.StepBackedIff | pkg/ipstack/routing.go:92-229 | A step keeps every RIP route's next hop a neighbour with a shorter route, and every message no better than its sender's table, if and only if it is not a sweep that removes a route relied on |
| RipBacking.SweepBackedIff | pkg/ipstack/routing.go:211-229 | A sweep keeps that if and only if no other router's RIP route for a removed prefix has its next hop here, and no message sent from here offers that prefix below 16 |
| RipBacking.RoutesAreBackedIff | pkg/ipstack/routing.go:92-229 | Over any run, sweeps included: that holds in every state if and only if every sweep spares what is relied on |
| IpForwarding.ForwardingTerminates | pkg/ipstack/ipstack.go:22-113 | On any tables, loops included: the checksum stays valid, the TTL counts down without wrapping, a node accepts exactly while it lasts, and no way is longer than TTL+1 stops |
| IpForwarding.HopDecrements | pkg/ipstack/packet.go:95-108 | A forwarded packet had a positive TTL, and leaves as CreatePacket would make it with one less |
| IpForwarding.Dispositions | pkg/ipstack/ipstack.go:57-113 | A packet is invalid exactly without TTL or with a wrong checksum, delivered exactly if an interface that is up has its destination, and otherwise leaves over an interface whose network contains the destination if there is one, else by the longest match, with one less to live |
| IpForwarding.ReceivePacket | pkg/ipstack/ipstack.go:57-113 | The three searches in order: dropped if invalid, delivered, sent on a connected network, forwarded by longest match, or dropped without a route |

## Left out

- Sequence-number wrap: the stream theorems assume ISS plus the stream stays below 2^32, as the source's plain unsigned comparisons do.
- FIN beside data: delivery, acknowledgement, flow control and coverage stop before the peer's FIN is taken, because handleFIN overwrites RCV.NXT and RCV.WND and VClose numbers its FIN by the socket's SeqNum; only the safety of the stream goes on to the close.
- Goroutine races, mutexes, and pointers into the table that outlive a shift or a reallocation: each handler, user call and timer expiry is one atomic step on its own entry.
- Timers: an expiry may happen at any moment; stopping and resetting the timers is not modelled. Only the retransmission theorems with k expiries count them.
- NormalSocket.NormalSocket.TrySendData: covers the passes up to the first wait or probe, after which what the loop does depends on the handler of arriving packets; StreamSafety goes on with every interleaving.
- Waiting in trySendData when the window is full, and VWrite's repetition of TryWrite and sending: a run takes these passes one by one, and that they ever end is not claimed.
- TcpStack.TCPStack.HandlePacket: an entry holds the socket's value and not a pointer to it; the socket object is rebuilt from the entry and written back, so aliasing between a user's handle and the entry is not captured.
- NormalSocket.NormalSocket.SendZeroWindowProbe: the handler that runs beside its loop is given as the windows it sets; in StreamSafety the handler's steps really interleave with the probe's.
- FlowControl.FlowIsControlled: data one way, in-order acknowledgements and no probes, because reordered acknowledgements set an older window, and a probe is sent beyond the window.
- Coverage.NothingUnackedIsForgotten: for the same runs, because a probe is never put in flight.
- Rto.SampleBounds: reals instead of float64, so that the rounding of the products is not captured.
- RipConvergence.RipConverges: links stay up, and no sweep happens within the rounds, because one may always remove what a round has taught.
- A missing table entry in VClose and VRead, which dereferences nil in the source: user calls are modelled on connections that are in the table.
- The local address, which VFindTableEntry does not compare, and port allocation: a new connection is assumed to have a key of its own.
- The capacity of the accept queue: a send on it never blocks.
- Failures of sendPacket, and initial sequence numbers from the clock, which are arbitrary.
- The early segment's Length field, which nothing reads, and sendDataPacket and sendRST, which nothing in the modelled paths calls.
- Go's random order over the interface map: the interfaces come in an arbitrary sequence.
- The IP header checksum of the external libraries: an arbitrary function of the header fields.
- UDP links, the REPLs, file transfer, and the parsing of configuration files.
