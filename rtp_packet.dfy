/**
 * The RTP-MIDI datagram layout: `byten`, the 12-byte RTP fixed header
 * (section 5.1 of RFC 3550) built by `RTPConnection.send_midi`, the one-byte
 * short MIDI command-section header (section 3 of RFC 6295), `rtp_decode` and
 * the RTP branch of `remote_data_read`.
 */
module RtpPacket {
  import opened Outcomes

  /** 256 to the power n. */
  function Pow256(n: nat): (r: nat)
    ensures r >= 1
  {
    if n == 0 then 1 else 256 * Pow256(n - 1)
  }

  /**
   * `byten(nr, n)`: `(nr >> 8*n) & 0xFF`. Python's `>>` floors and `& 0xFF` of a
   * negative integer is its residue modulo 256, which is exactly Dafny's
   * Euclidean `/` and `%` with a positive divisor, so the model holds for
   * every integer.
   */
  function Byten(nr: int, n: nat): (r: byte)
    ensures 0 <= nr < 256 * Pow256(n) ==> r == nr / Pow256(n)
  {
    (nr / Pow256(n)) % 256
  }

  /** Euclidean division has a unique quotient and remainder. */
  lemma DivModUnique(x: int, m: int, q: int, r: int)
    requires m > 0 && x == m * q + r && 0 <= r < m
    ensures x / m == q && x % m == r
  {
    var d := q - x / m;
    assert m * d == x % m - r;
  }

  /** The remainder modulo a*b splits into the digit of weight a and the remainder modulo a. */
  lemma DivModSplit(x: int, a: int, b: int)
    requires a > 0 && b > 0
    ensures x % (a * b) == (x / a) % b * a + x % a
  {
    var q, r := x / a, x % a;
    var q2, r2 := q / b, q % b;
    assert x == (a * b) * q2 + (a * r2 + r);
    assert a * r2 <= a * (b - 1);
    DivModUnique(x, a * b, q2, a * r2 + r);
  }

  /** Adding byte n on top of the low n bytes gives the low n + 1 bytes. */
  lemma BytenDigit(x: int, n: nat)
    ensures x % Pow256(n + 1) == Byten(x, n) * Pow256(n) + x % Pow256(n)
  {
    assert Pow256(n + 1) == Pow256(n) * 256;
    DivModSplit(x, Pow256(n), 256);
  }

  /** Big-endian 16-bit value of two bytes, as `struct` reads `H` with `!`. */
  function BigEndian16(hi: byte, lo: byte): (r: int)
    ensures 0 <= r < 0x1_0000
  {
    hi * 256 + lo
  }

  /** Big-endian 32-bit value of four bytes, as `struct` reads `L` with `!`. */
  function BigEndian32(b: seq<byte>): (r: int)
    requires |b| == 4
    ensures 0 <= r < 0x1_0000_0000
  {
    BigEndian16(b[0], b[1]) * 0x1_0000 + BigEndian16(b[2], b[3])
  }

  /** The two `byten` bytes of weight 1 and 0 reassemble the value modulo 2^16. */
  lemma Byten16(x: int)
    ensures BigEndian16(Byten(x, 1), Byten(x, 0)) == x % 0x1_0000
  {
    BytenDigit(x, 0);
    BytenDigit(x, 1);
  }

  /** The four `byten` bytes of weight 3 down to 0 reassemble the value modulo 2^32. */
  lemma Byten32(x: int)
    ensures BigEndian32([Byten(x, 3), Byten(x, 2), Byten(x, 1), Byten(x, 0)]) == x % 0x1_0000_0000
  {
    assert Pow256(2) == 0x1_0000 && Pow256(3) == 0x100_0000 && Pow256(4) == 0x1_0000_0000;
    Byten16(x);
    BytenDigit(x, 2);
    BytenDigit(x, 3);
    var b3: int, b2: int, low := Byten(x, 3), Byten(x, 2), x % 0x1_0000;
    assert x % 0x1_0000_0000 == b3 * 0x100_0000 + (b2 * 0x1_0000 + low);
    assert BigEndian16(Byten(x, 3), Byten(x, 2)) * 0x1_0000 == b3 * 0x100_0000 + b2 * 0x1_0000;
  }

  /**
   * The RTP fixed header `send_midi` writes: version 2 with no padding,
   * extension or CSRC (0x80), marker bit clear with payload type 97 (0x61),
   * then the sequence number, the timestamp and the SSRC, most significant
   * byte first.
   */
  function RtpHeader(seq1: int, timestamp: int, id: int): (r: seq<byte>)
    ensures |r| == 12 && r[0] == 0x80 && r[1] == 0x61
  {
    [0x80, 0x61,
     Byten(seq1, 1), Byten(seq1, 0),
     Byten(timestamp, 3), Byten(timestamp, 2), Byten(timestamp, 1), Byten(timestamp, 0),
     Byten(id, 3), Byten(id, 2), Byten(id, 1), Byten(id, 0)]
  }

  /** Every element fits in an octet, as `bytes(msg)` demands. */
  predicate AllBytes(msg: seq<int>)
  {
    forall k :: 0 <= k < |msg| ==> 0 <= msg[k] < 256
  }

  /** The same list, as bytes. */
  function AsBytes(msg: seq<int>): (r: seq<byte>)
    requires AllBytes(msg)
    ensures |r| == |msg| && forall k :: 0 <= k < |msg| ==> r[k] == msg[k]
  {
    if msg == [] then [] else [msg[0] as byte] + AsBytes(msg[1..])
  }

  /**
   * `bytes(rtpheader) + bytes(rtpmidi_header) + bytes(msg)`: the header, one
   * byte holding the length of the MIDI list, then the MIDI bytes. `bytes`
   * raises when the length or an element does not fit in an octet. The
   * length byte is meant as the one-byte command-section header (flags B, J,
   * Z, P clear, then a 4-bit LEN); `ShortHeaderFields` shows what it holds
   * for the lengths `send_midi` lets through.
   */
  function Packet(seq1: int, timestamp: int, id: int, msg: seq<int>): (r: Outcome<seq<byte>>)
    ensures r.Raises? <==> |msg| >= 256 || !AllBytes(msg)
    ensures r.Returns? ==> |r.value| == 13 + |msg| && r.value[..12] == RtpHeader(seq1, timestamp, id)
                           && r.value[12] == |msg| && r.value[13..] == AsBytes(msg)
  {
    if |msg| >= 256 || !AllBytes(msg) then Raises
    else Returns(RtpHeader(seq1, timestamp, id) + [|msg|] + AsBytes(msg))
  }

  /**
   * For up to 15 bytes the length byte is a short command-section header
   * with all four flags clear and LEN equal to the message length. A
   * 16-byte message, which `send_midi` also accepts, writes 0x10: the P
   * (phantom) flag set and LEN 0.
   */
  lemma ShortHeaderFields(seq1: int, timestamp: int, id: int, msg: seq<int>)
    requires |msg| <= 16 && AllBytes(msg)
    ensures Packet(seq1, timestamp, id, msg).Returns?
    ensures var h := Packet(seq1, timestamp, id, msg).value[12];
            && (|msg| <= 15 ==> h / 16 == 0 && h % 16 == |msg|)
            && (|msg| == 16 ==> h / 16 == 1 && h % 16 == 0)
  {
  }

  /** The five fields `rtp_decode` unpacks with the format `!BBHLL`. */
  datatype RtpFixedHeader = RtpFixedHeader(flags: int, payloadType: int, sequenceNr: int, timestamp: int, source: int)

  /** `rtp_decode`: `struct.unpack` raises unless it is given exactly 12 bytes. */
  function RtpDecode(msg: seq<byte>): (r: Outcome<RtpFixedHeader>)
    ensures r.Raises? <==> |msg| != 12
    ensures r.Returns? ==> 0 <= r.value.sequenceNr < 0x1_0000 && 0 <= r.value.timestamp < 0x1_0000_0000
                           && 0 <= r.value.source < 0x1_0000_0000
  {
    if |msg| != 12 then Raises
    else Returns(RtpFixedHeader(msg[0], msg[1], BigEndian16(msg[2], msg[3]),
                                BigEndian32(msg[4..8]), BigEndian32(msg[8..12])))
  }

  /** What `remote_data_read` hands back for one datagram. */
  datatype Received =
    | Command(command: int, datagram: seq<byte>) // an AppleMIDI command (signature 0xFFFF) and its code
    | Rtp(source: int, payload: seq<byte>)       // an RTP packet: its SSRC and the bytes from offset 13

  /** The AppleMIDI command codes `remote_data_read` dispatches on: "OK" and "CK". */
  const CommandOk: int := 0x4F4B
  const CommandCk: int := 0x434B

  /**
   * A command datagram too short for the field `remote_data_read` unpacks
   * before looking its initiator up: the command code at bytes 2..4, then
   * the initiator at 8..12 for "OK" and at 4..8 for "CK".
   */
  predicate CommandTooShort(datagram: seq<byte>)
  {
    || |datagram| < 4
    || (BigEndian16(datagram[2], datagram[3]) == CommandOk && |datagram| < 12)
    || (BigEndian16(datagram[2], datagram[3]) == CommandCk && |datagram| < 8)
  }

  /**
   * `remote_data_read` after `recvfrom`: the first two bytes decide between
   * a command and an RTP packet. A command raises when it is too short for
   * the fields read before its initiator is looked up; otherwise its code is
   * returned. An RTP packet's header is the first 12 bytes, and the MIDI
   * payload is everything after the length byte at offset 12.
   */
  function RemoteDataRead(datagram: seq<byte>): (r: Outcome<Received>)
    ensures r.Raises? <==>
      || |datagram| < 2
      || (BigEndian16(datagram[0], datagram[1]) == 0xFFFF && CommandTooShort(datagram))
      || (BigEndian16(datagram[0], datagram[1]) != 0xFFFF && |datagram| < 12)
    ensures r.Returns? && r.value.Command? ==>
              |datagram| >= 4 && BigEndian16(datagram[0], datagram[1]) == 0xFFFF
              && r.value.command == BigEndian16(datagram[2], datagram[3]) && r.value.datagram == datagram
    ensures r.Returns? && r.value.Rtp? ==>
              |datagram| >= 12 && RtpDecode(datagram[..12]).Returns? && r.value.source == RtpDecode(datagram[..12]).value.source
              && (|datagram| > 13 ==> datagram == datagram[..13] + r.value.payload)
              && (|datagram| <= 13 ==> r.value.payload == [])
  {
    if |datagram| < 2 then Raises
    else if BigEndian16(datagram[0], datagram[1]) == 0xFFFF then
      if CommandTooShort(datagram) then Raises
      else Returns(Command(BigEndian16(datagram[2], datagram[3]), datagram))
    else
      match RtpDecode(datagram[..if |datagram| < 12 then |datagram| else 12])
      case Raises => Raises
      case Returns(h) => Returns(Rtp(h.source, if |datagram| > 13 then datagram[13..] else []))
  }

  /**
   * A packet built by `send_midi` decodes to the header it was built from:
   * fixed flags and payload type, the sequence number modulo 2^16, the
   * timestamp and the SSRC modulo 2^32, and the length byte.
   */
  lemma PacketHeaderRoundTrip(seq1: int, timestamp: int, id: int, msg: seq<int>)
    requires Packet(seq1, timestamp, id, msg).Returns?
    ensures RtpDecode(Packet(seq1, timestamp, id, msg).value[..12])
            == Returns(RtpFixedHeader(0x80, 0x61, seq1 % 0x1_0000, timestamp % 0x1_0000_0000, id % 0x1_0000_0000))
    ensures Packet(seq1, timestamp, id, msg).value[12] == |msg|
  {
    var h := RtpHeader(seq1, timestamp, id);
    Byten16(seq1);
    Byten32(timestamp);
    Byten32(id);
    assert h[4..8] == [Byten(timestamp, 3), Byten(timestamp, 2), Byten(timestamp, 1), Byten(timestamp, 0)];
    assert h[8..12] == [Byten(id, 3), Byten(id, 2), Byten(id, 1), Byten(id, 0)];
  }

  /**
   * The receiving side of a packet `send_midi` built reads it as an RTP
   * packet from SSRC `id mod 2^32` whose payload is the message itself, so
   * `midi_to_evs` sees exactly the bytes that were sent.
   */
  lemma PacketPayloadRoundTrip(seq1: int, timestamp: int, id: int, msg: seq<int>)
    requires Packet(seq1, timestamp, id, msg).Returns?
    ensures RemoteDataRead(Packet(seq1, timestamp, id, msg).value)
            == Returns(Rtp(id % 0x1_0000_0000, AsBytes(msg)))
  {
    var p := Packet(seq1, timestamp, id, msg).value;
    PacketHeaderRoundTrip(seq1, timestamp, id, msg);
    assert BigEndian16(p[0], p[1]) != 0xFFFF;
    if |p| > 13 {
    } else {
      assert AsBytes(msg) == p[13..] == [];
    }
  }

  /** The state of one `RTPConnection` that `send_midi` reads or changes. */
  datatype Link = Link(id: int, seq1: int, seq2: int, connected: bool, sent: seq<seq<byte>>)

  /**
   * One `send_midi(msg)` call at the given timestamp: nothing happens before
   * the connection is accepted; more than 16 bytes raise before anything
   * changes; otherwise both sequence counters advance and then the packet is
   * built, which raises (counters already advanced) when an element is not
   * an octet, or is sent on the MIDI socket.
   */
  function SendStep(l: Link, msg: seq<int>, timestamp: int): (r: (Link, bool))
    ensures !l.connected ==> r == (l, false)
    ensures l.connected && |msg| > 16 ==> r == (l, true)
    ensures r.0.id == l.id && r.0.connected == l.connected
    ensures l.connected && |msg| <= 16 ==>
              r.0.seq1 == l.seq1 + 1 && r.0.seq2 == l.seq2 + 1 && (r.1 <==> !AllBytes(msg))
    ensures !r.1 && l.connected && |msg| <= 16 ==>
              r.0.sent == l.sent + [Packet(l.seq1 + 1, timestamp, l.id, msg).value]
    ensures r.1 || !l.connected ==> r.0.sent == l.sent
  {
    if !l.connected then (l, false)
    else if |msg| > 16 then (l, true)
    else
      var next := l.(seq1 := l.seq1 + 1, seq2 := l.seq2 + 1);
      match Packet(next.seq1, timestamp, l.id, msg)
      case Raises => (next, true)
      case Returns(p) => (next.(sent := l.sent + [p]), false)
  }

  /**
   * A successful send emits one datagram that carries the new sequence
   * number and the connection's SSRC in its header and the message as its
   * payload.
   */
  lemma SendStepEmits(l: Link, msg: seq<int>, timestamp: int)
    requires l.connected && |msg| <= 16 && AllBytes(msg)
    ensures var r := SendStep(l, msg, timestamp);
            !r.1 && |r.0.sent| == |l.sent| + 1
            && RtpDecode(r.0.sent[|l.sent|][..12])
               == Returns(RtpFixedHeader(0x80, 0x61, (l.seq1 + 1) % 0x1_0000, timestamp % 0x1_0000_0000, l.id % 0x1_0000_0000))
            && RemoteDataRead(r.0.sent[|l.sent|]) == Returns(Rtp(l.id % 0x1_0000_0000, AsBytes(msg)))
  {
    var p := Packet(l.seq1 + 1, timestamp, l.id, msg).value;
    assert SendStep(l, msg, timestamp).0.sent == l.sent + [p];
    PacketHeaderRoundTrip(l.seq1 + 1, timestamp, l.id, msg);
    PacketPayloadRoundTrip(l.seq1 + 1, timestamp, l.id, msg);
  }

  /**
   * Two successful sends in a row are numbered consecutively on the wire,
   * modulo 2^16.
   */
  lemma ConsecutiveSequenceNumbers(l: Link, m1: seq<int>, m2: seq<int>, t1: int, t2: int)
    requires l.connected && |m1| <= 16 && AllBytes(m1) && |m2| <= 16 && AllBytes(m2)
    ensures var a := SendStep(l, m1, t1).0;
            var b := SendStep(a, m2, t2).0;
            RtpDecode(b.sent[|l.sent| + 1][..12]).value.sequenceNr
            == (RtpDecode(b.sent[|l.sent|][..12]).value.sequenceNr + 1) % 0x1_0000
  {
    var a := SendStep(l, m1, t1).0;
    SendStepEmits(l, m1, t1);
    assert a.connected && a.id == l.id && a.seq1 == l.seq1 + 1 && |a.sent| == |l.sent| + 1;
    var first := RtpDecode(a.sent[|l.sent|][..12]);
    assert first.value.sequenceNr == (l.seq1 + 1) % 0x1_0000;
    var b := SendStep(a, m2, t2).0;
    SendStepEmits(a, m2, t2);
    assert b.sent == a.sent + [b.sent[|a.sent|]];
    assert b.sent[|l.sent|] == a.sent[|l.sent|];
    var second := RtpDecode(b.sent[|l.sent| + 1][..12]);
    assert second.value.sequenceNr == (l.seq1 + 2) % 0x1_0000;
    ModSucc(l.seq1 + 1, 0x1_0000);
  }

  /** Adding one commutes with reduction modulo m. */
  lemma ModSucc(x: int, m: int)
    requires m > 0
    ensures (x % m + 1) % m == (x + 1) % m
  {
    var q, r := x / m, x % m;
    assert x == m * q + r;
    if r + 1 < m {
      DivModUnique(x + 1, m, q, r + 1);
      DivModUnique(r + 1, m, 0, r + 1);
    } else {
      assert x + 1 == m * (q + 1) + 0;
      DivModUnique(x + 1, m, q + 1, 0);
      DivModUnique(r + 1, m, 1, 0);
    }
  }

  /** A connection seen from `send_midi`: its SSRC, counters, state and the datagrams it sent. */
  class RtpConnection {
    var id: int
    var seq1: int
    var seq2: int
    var connected: bool
    var sent: seq<seq<byte>>

    function State(): Link
      reads this
    {
      Link(id, seq1, seq2, connected, sent)
    }

    /** A connection with the given SSRC and initial sequence numbers, not yet accepted. */
    constructor (id: int, seq1: int, seq2: int)
      ensures State() == Link(id, seq1, seq2, false, [])
    {
      this.id := id;
      this.seq1 := seq1;
      this.seq2 := seq2;
      connected := false;
      sent := [];
    }

    /**
     * `accepted_connection`: the remote side accepted (`conn_start` is set),
     * and from then on the connection goes by the remote's SSRC `sender`.
     */
    method Accept(sender: int)
      modifies this
      ensures State() == old(State()).(connected := true, id := sender)
    {
      connected := true;
      id := sender;
    }

    /** `send_midi(msg)` with the millisecond timestamp since the connection started. */
    method SendMidi(msg: seq<int>, timestamp: int) returns (raised: bool)
      modifies this
      ensures (State(), raised) == SendStep(old(State()), msg, timestamp)
    {
      if !connected {
        return false;
      }
      if |msg| > 16 {
        return true;
      }
      seq1 := seq1 + 1;
      seq2 := seq2 + 1;
      var packet := Packet(seq1, timestamp, id, msg);
      if packet.Raises? {
        return true;
      }
      sent := sent + [packet.value];
      raised := false;
    }
  }
}
