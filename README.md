# rtpmidid core in Dafny

This project models two pieces of the rtpmidid MIDI network daemon and proves properties about them.

**The MIDI router of the daemon (`midirouter_t`).** The router holds two things:
- a registry of peers, keyed by numeric ids handed out by a counter that starts at 1;
- for each peer, a forwarding list of the peers it sends to.

It lets peers be added and removed, connects one peer to another, and delivers MIDI data point to point or to every entry of a sender's forwarding list. The model is the class `MidiRouter.Router`. Its fields are:
- the id counter;
- the registry;
- the per-peer `packets_sent`/`packets_recv` counters;
- a trace of deliveries, which stands for the peers' own `send_midi` calls.

Each method is proved equal to a pure step function on `RouterState`. The lemmas are stated about those functions.

**The Python RTP-MIDI prototype (`rtpmidi.py`).** The modelled parts are:
- the table between MIDI status nibbles and ALSA sequencer event types;
- the conversions `midi_to_ev` and `ev_to_midi`;
- the running-status stream parser `midi_to_evs`, as a loop method proved against a recursive function;
- `byten`;
- the RTP fixed header (section 5.1 of RFC 3550) and the one-byte short MIDI command-section header (section 3 of RFC 6295), as built by `RTPConnection.send_midi`;
- their decoding by `rtp_decode` and by the RTP branch of `remote_data_read`;
- the sequence-number bookkeeping of `send_midi`;
- the registry re-key `initiator_is_peer`;
- `maybe_wrap`.

How Python is modelled:
- A Python exception is an `Outcome.Raises` result.
- `None` is `Option.None`.
- A generator that yields some values and then raises is a `Parse(events, raised)` value.
- Integers are unbounded, as in Python. `>>` and `& 0xFF` are Dafny's Euclidean `/` and `%`, which agree with Python for every integer when the divisor is positive.

The files:
- `outcomes.dfy`: `byte`, `Option`, `Outcome`.
- `midirouter.dfy`: module `MidiRouter`.
- `midi_events.dfy`: module `MidiEvents`.
- `rtp_packet.dfy`: module `RtpPacket`.
- `rtp_session.dfy`: modules `RtpSession` and `Iterables`.
- `transport.dfy`: module `Transport`, which links the sending and receiving sides.

The pitch-bend conversion is modelled as written. `midi_to_ev` reads the two data bytes as (LSB, MSB), which is MIDI 1.0's order. `ev_to_midi` writes them as (MSB, LSB). A pitch bend that goes through both therefore comes back with its data bytes swapped, and `MidiEvents.PitchBendRoundTripSwaps` proves this. No round trip is claimed for pitch bend.

The length byte `send_midi` writes after the RTP header is meant as the one-byte command-section header of section 3 of RFC 6295: flags B, J, Z and P, then a 4-bit LEN. `send_midi` accepts messages of up to 16 bytes. A 16-byte message therefore writes 0x10, which a receiver reads as the P (phantom) flag with LEN 0, and `RtpPacket.ShortHeaderFields` states this. The receiving side in `rtpmidi.py` ignores that byte.

## Model

| member | source | states |
|---|---|---|
| MidiRouter.Init | src2/midirouter.cpp:26 | a new router's id counter is 1 and its registry and delivery trace are empty |
| MidiRouter.Added | src2/midirouter.cpp:28-41 | the new id is the old counter, which is at least 1, was never registered and has no counters yet; the counter grows; the registry gains exactly that key, mapped to an entry carrying that id with an empty forwarding list; the new peer's counters start at 0; every other entry and counter is unchanged |
| MidiRouter.Removed | src2/midirouter.cpp:43-46 | exactly the given key leaves the registry and every other entry is unchanged; an unknown id leaves the state equal to the old one |
| MidiRouter.Connected | src2/midirouter.cpp:81-94 | if both ids are registered, `to` is appended to the end of `from`'s forwarding list and nothing else changes; otherwise the state is unchanged |
| MidiRouter.SentTo | src2/midirouter.cpp:62-79 | with either side unregistered nothing changes; otherwise `from`'s sent counter and `to`'s received counter each rise by exactly 1 (both on the same peer when `from == to`) and exactly one delivery (to, from, data) is appended |
| MidiRouter.SendAllEffect | src2/midirouter.cpp:56-59 | sending to every entry of a list, in order, delivers once to each registered entry (duplicates included), adds the number of registered entries to the sender's counter and each entry's number of occurrences to its received counter |
| MidiRouter.Broadcast | src2/midirouter.cpp:48-60 | an unknown sender changes nothing; otherwise the deliveries are one per registered entry of the sender's forwarding list, in list order, with the counters raised accordingly; ids and registry are unchanged |
| MidiRouter.AddPeersNumbering | src2/midirouter.cpp:26-29 | n successive `add_peer` calls return the counter, counter+1, ..., counter+n-1 and leave the counter n higher |
| MidiRouter.FreshRouterIds | src2/midirouter.cpp:26-29 | on a new router, successive `add_peer` calls return 1, 2, 3, ...: never 0 and strictly increasing, hence never reused |
| MidiRouter.RemovePeerIdempotent | src2/midirouter.cpp:43-46 | removing an id twice equals removing it once |
| MidiRouter.ConnectTwiceDuplicates | src2/midirouter.cpp:81-94 | connecting the same pair twice lists the target twice |
| MidiRouter.DuplicateConnectDeliversTwice | src2/midirouter.cpp:56-59 | starting from an empty forwarding list, after two identical `connect` calls, a broadcast delivers twice to that target and both counters rise by 2 |
| MidiRouter.BroadcastReachesOnlyListed | src2/midirouter.cpp:48-67 | every delivery a broadcast makes comes from the sender, carries the data, and goes to a registered peer listed in the sender's forwarding list |
| MidiRouter.RemovedLeavesDangling | src2/midirouter.cpp:43-67 | removing a peer does not purge it from other forwarding lists, and a send to the dangling entry has no effect |
| MidiRouter.BroadcastToTwo | src2/midirouter.cpp:48-79 | when peer 1 forwards to peers 2 and 3 of an idle registry, a broadcast delivers to 2, then to 3; peer 1 sends 2 packets, 2 and 3 receive one each, all other counts stay at 0 |
| MidiRouter.ThreePeerScenario | src2/midirouter.cpp:26-94 | on a new router: add three peers, connect 1 to 2 and 1 to 3, broadcast from 1; the deliveries and counters are exactly those above |
| MidiRouter.Router.constructor | src2/midirouter.cpp:26 | the object starts in the initial state, with counter 1 and no peers |
| MidiRouter.Router.AddPeer | src2/midirouter.cpp:28-41 | returns the old counter value (at least 1, previously unregistered), increments the counter, registers a fresh entry with an empty forwarding list, and the new state is `Added` of the old one |
| MidiRouter.Router.RemovePeer | src2/midirouter.cpp:43-46 | the new state is `Removed` of the old one |
| MidiRouter.Router.Connect | src2/midirouter.cpp:81-94 | the new state is `Connected` of the old one |
| MidiRouter.Router.SendMidiTo | src2/midirouter.cpp:62-79 | the new state is `SentTo` of the old one |
| MidiRouter.Router.SendMidi | src2/midirouter.cpp:48-60 | looping over the sender's forwarding list with point-to-point sends yields exactly `Broadcast` of the old state |
| MidiEvents.Code | rtpmidi.py:430-436 | every ALSA event type the table names has a nonzero code, so the `if not type` test rejects only a missing table entry |
| MidiEvents.StatusNibble | rtpmidi.py:442 | `b & 0xF0` is the multiple of 16 at or just below the byte, and has the high bit set exactly when the byte does |
| MidiEvents.MidiToEvType | rtpmidi.py:429-437 | a status nibble has an event type exactly when it is one of 0x80, 0x90, 0xA0, 0xB0, 0xE0 |
| MidiEvents.EvTypeToMidi | rtpmidi.py:438 | the reverse table sends each event type to a status that the forward table maps back to it |
| MidiEvents.MidiTableInverse | rtpmidi.py:429-438 | the two tables are exact inverses, in both directions |
| MidiEvents.CodeInjective | rtpmidi.py:429-437 | distinct ALSA event types have distinct codes, so the reverse table is well defined |
| MidiEvents.MidiToEv | rtpmidi.py:441-487 | raises exactly on an empty message or a pitch bend whose length is not 3; returns None exactly for a status nibble outside notes, controller and pitch bend (poly key pressure included), or for a note or controller message whose length is not 3; any event it returns comes from a 3-byte message and carries the table's type |
| MidiEvents.EvToMidi | rtpmidi.py:490-502 | raises exactly when the parameter tuple is too short for the indices read; returns None exactly for types other than note on/off, controller and pitch bend; a result is a 3-byte message whose status is in the table |
| MidiEvents.ChannelIgnored | rtpmidi.py:442 | changing the channel nibble of the status byte does not change the result of `midi_to_ev` |
| MidiEvents.RoundTripDropsChannel | rtpmidi.py:462-494 | a 3-byte note or controller message on any channel comes back from `midi_to_ev` then `ev_to_midi` with its data bytes, on channel 0 |
| MidiEvents.ChannelZeroRoundTrip | rtpmidi.py:462-494 | for 3-byte channel-0 note-off, note-on and controller messages, `ev_to_midi` undoes `midi_to_ev` |
| MidiEvents.PitchBendSplit | rtpmidi.py:495-497 | `ev_to_midi` of a pitch bend gives status 0xE0 and two bytes below 128; for a value below 2^14 the first times 128 plus the second is the value |
| MidiEvents.PitchBendRoundTripSwaps | rtpmidi.py:449-497 | a pitch bend message comes back from `midi_to_ev` then `ev_to_midi` with its two data bytes swapped |
| MidiEvents.GroupLength | rtpmidi.py:410-413 | a message takes one data byte exactly for the statuses 0xC0 and 0xD0, and two for every other status |
| MidiEvents.Feed | rtpmidi.py:407-422 | one loop pass: a status byte restarts collection at that status and yields nothing; a data byte keeps `current` and `evlen`, and raises once the pending data is the empty text; a pass yields at most one value, and only for a data byte |
| MidiEvents.Finish | rtpmidi.py:424-425 | after the loop, pending data of any length but 2 yields nothing; otherwise at most the one conversion, which raises only if `midi_to_ev` does |
| MidiEvents.Scan | rtpmidi.py:402-425 | the recursive reading of the generator: it yields at most one value per input byte plus one at the end |
| MidiEvents.ScanStep | rtpmidi.py:406-422 | the parse of a stream is what the first loop pass yields followed by the parse of the rest, or nothing and an exception if that pass raises |
| MidiEvents.Advance | rtpmidi.py:407-422 | the imperative loop body computes the next loop variables and output given by the pure step `Feed` |
| MidiEvents.MidiToEvs | rtpmidi.py:402-425 | the generator loop yields exactly the events of the recursive parse `Scan` from the initial loop variables, and raises exactly when it does |
| MidiEvents.StatusRestarts | rtpmidi.py:407-413 | a byte with the high bit set discards any partial data and restarts collection at that status, whatever came before |
| MidiEvents.GroupConverts | rtpmidi.py:441-485 | a status byte followed by a complete group of data bytes never makes `midi_to_ev` raise |
| MidiEvents.OneGroup | rtpmidi.py:414-417 | after a status other than 0xF0, one complete group of data bytes yields exactly its own conversion and returns the loop to the state right after the status |
| MidiEvents.RunningStatus | rtpmidi.py:414-417 | under running status every further complete group yields one more event of that status, in order: one per group, with one data byte per group for exactly 0xC0 and 0xD0 and two otherwise |
| MidiEvents.WellFormedStream | rtpmidi.py:402-425 | a stream made of complete messages parses without raising into exactly the conversions of its groups, in order |
| MidiEvents.NoteOnNoteOffExample | rtpmidi.py:517-518 | `[0x90,10,10,0x80,10,0]` yields exactly a note-on with (10,10) and then a note-off with (10,0) |
| MidiEvents.TruncatedPitchBendRaises | rtpmidi.py:424-425 | a pitch bend cut after its first data byte yields nothing and then raises, because of the final two-byte conversion |
| MidiEvents.DataAfterSystemRunRaises | rtpmidi.py:418-422 | an 0xF0 run closed by 0x7F yields None, and a data byte after it raises because the pending data is then the empty text |
| RtpPacket.Byten | rtpmidi.py:381-382 | `byten(nr, n)` is an octet; for a value that fits in n+1 bytes it is the quotient by 256^n, the most significant byte |
| RtpPacket.BytenDigit | rtpmidi.py:381-382 | `byten(x, n)`, an octet by its type, is the base-256 digit of weight n: it takes the low n bytes of x to the low n+1 bytes |
| RtpPacket.Byten16 | rtpmidi.py:362 | the two sequence-number bytes, read big-endian, give the sequence number modulo 2^16 |
| RtpPacket.Byten32 | rtpmidi.py:364-365 | the four timestamp or SSRC bytes, read big-endian, give the value modulo 2^32 |
| RtpPacket.BigEndian16 | rtpmidi.py:193 | an unsigned 16-bit field read big-endian lies in 0 .. 2^16-1 |
| RtpPacket.BigEndian32 | rtpmidi.py:193 | an unsigned 32-bit field read big-endian lies in 0 .. 2^32-1 |
| RtpPacket.RtpHeader | rtpmidi.py:360-366 | the header is 12 bytes starting with 0x80 and 0x61 |
| RtpPacket.AsBytes | rtpmidi.py:367 | `bytes(msg)` keeps the length and every element |
| RtpPacket.Packet | rtpmidi.py:355-367 | building raises exactly when the length or an element does not fit in an octet; otherwise the packet is the 12-byte header, one byte holding the message length, then the message |
| RtpPacket.ShortHeaderFields | rtpmidi.py:352-355 | for up to 15 bytes the length byte is a command-section header with all flags clear and LEN equal to the length; for the 16 bytes `send_midi` also accepts, it has the P flag set and LEN 0 |
| RtpPacket.RtpDecode | rtpmidi.py:192-195 | unpacking raises exactly unless it is given 12 bytes; the sequence number is below 2^16 and the timestamp and source are below 2^32 |
| RtpPacket.RemoteDataRead | rtpmidi.py:197-227 | raises exactly on fewer than 2 bytes, on a command datagram too short for its code (4 bytes) or for the initiator read before the lookup (12 bytes for "OK", 8 for "CK"), or on an RTP datagram shorter than 12 bytes; a command result carries the code from bytes 2..4; an RTP result carries the source decoded from the first 12 bytes and everything after offset 13 as its payload |
| RtpPacket.PacketHeaderRoundTrip | rtpmidi.py:360-367 | decoding the first 12 bytes of a built packet gives flags 0x80, payload type 0x61, the sequence number modulo 2^16, and the timestamp and id modulo 2^32; byte 12 is the message length |
| RtpPacket.PacketPayloadRoundTrip | rtpmidi.py:225-227 | the receiver reads a built packet as RTP from SSRC id modulo 2^32, with the message itself as payload |
| RtpPacket.SendStep | rtpmidi.py:348-367 | a connection that has not been accepted changes nothing; more than 16 bytes raise with nothing changed; otherwise both sequence counters rise by one, and then the call either raises (no datagram sent) exactly when an element is not an octet, or sends the packet built from the new sequence number |
| RtpPacket.SendStepEmits | rtpmidi.py:355-367 | a successful send emits one datagram that decodes to the new sequence number, the timestamp and the connection's SSRC, with the message as payload |
| RtpPacket.ConsecutiveSequenceNumbers | rtpmidi.py:357-362 | two successful sends in a row carry consecutive sequence numbers modulo 2^16 |
| RtpPacket.RtpConnection.constructor | rtpmidi.py:248-258 | a new connection holds its id and initial sequence numbers, is not yet accepted, and has sent nothing |
| RtpPacket.RtpConnection.Accept | rtpmidi.py:336-342 | accepting marks the connection as connected and replaces its id with the remote's SSRC; counters and sent datagrams are unchanged |
| RtpPacket.RtpConnection.SendMidi | rtpmidi.py:348-367 | the new state and the raised flag are exactly those of `SendStep` |
| Transport.SentMessagesArrive | rtpmidi.py:178-180 | up to 16 bytes of complete MIDI messages sent on an accepted connection arrive as one RTP datagram from the connection's SSRC; parsing its payload yields exactly the messages' events, without raising |
| RtpSession.Rekeyed | rtpmidi.py:175-176 | afterwards the initiator key is absent; with distinct ids the peer key holds the initiator's old connection; every other key and value is unchanged |
| RtpSession.RekeyMoves | rtpmidi.py:175-176 | with distinct ids the key set trades the initiator for the peer, and the registry shrinks by one exactly when the peer id was already present |
| RtpSession.RekeySelfDrops | rtpmidi.py:175-176 | re-keying an id to itself removes that connection |
| RtpSession.RekeyBack | rtpmidi.py:166-176 | re-keying to a fresh id and back restores the registry |
| RtpSession.RtpMidi.constructor | rtpmidi.py:135 | a new registry is empty |
| RtpSession.RtpMidi.ConnectTo | rtpmidi.py:164 | the new connection is stored under its local id |
| RtpSession.RtpMidi.InitiatorIsPeer | rtpmidi.py:166-176 | raises, changing nothing, exactly when the initiator is not registered; otherwise the registry becomes `Rekeyed` of the old one |
| Iterables.MaybeWrap | rtpmidi.py:505-514 | the result is always a list or a tuple: None gives no elements, a list or tuple is returned as it is, and a single value gives a one-element tuple |
| Iterables.MaybeWrapIdempotent | rtpmidi.py:505-514 | wrapping a result of `maybe_wrap` again changes nothing |

## Left out

- Logging. The `INFO`/`WARNING` output of the router and the `logger`/`print` calls of `rtpmidi.py` have no effect on state.
- Peer objects. `shared_ptr` ownership, the `router` back-pointer and the stamped `peer_id` field are not modelled. A peer is its registry entry and its two counters.
- Peer counters are kept per issued id and counted from registration, so they outlive removal, as the peer object does.
- The peers' own `send_midi` is a virtual call into code outside the router. It is modelled as an entry appended to the delivery trace.
- Reentrancy. A peer that connects or removes peers while a broadcast is iterating is not modelled.
- MidiRouter.Router.AddPeer: the counter is an unbounded natural, so the wrap-around of the 32-bit `max_id` after 2^32 - 1 peers is not modelled.
- MidiRouter.Added: same 32-bit wrap-around omission.
- Sockets, epoll dispatch, the task queue, zeroconf discovery, the `alsaseq` calls and `main` are I/O. The datagram sent is appended to the `sent` trace instead of being passed to `sendto`.
- `RTPConnection.connect`, `RTPMidi.send` and `process_midi`/`process_control` do I/O and loop over peers around the modelled functions.
- Clock synchronisation (`sync`, `sync1` to `sync3`, `recv_sync`) and `time()` read the wall clock. The `send_midi` timestamp is a parameter.
- `accepted_connection`'s parsing of the reply, its `assert` and its name scan are left out. Its effect on the session registry is `initiator_is_peer`, which is modelled. Its effect on the connection (setting `conn_start` and taking the remote's SSRC as id) is `RtpConnection.Accept`.
- RtpPacket.RemoteDataRead: a command datagram that passes the length checks is returned as `Command` with its code. What follows is not modelled: the initiator lookup, `accepted_connection` and `recv_sync`, and the exceptions they can raise (`recv_sync` unpacks a fixed-size body).
- `random` choices (SSRC, local ids, initial sequence numbers) are parameters.
- `bytes()` of a non-integer element (a `TypeError`) is not modelled. Messages are integer lists.
