/**
 * The two ends of `rtpmidi.py` put together: what one connection's
 * `send_midi` puts on the wire is what the receiving side's
 * `remote_data_read` and `midi_to_evs` turn back into events.
 */
module Transport {
  import opened Outcomes
  import opened MidiEvents
  import opened RtpPacket

  /** Bytes read back as the integer list `send_midi` is given. */
  lemma AsBytesOfBytes(m: seq<byte>)
    ensures AllBytes(m) && AsBytes(m) == m
  {
    var r := AsBytes(m);
    assert forall k :: 0 <= k < |m| ==> r[k] == m[k];
  }

  /**
   * A connected link sending up to 16 bytes of complete MIDI messages emits
   * one datagram; the receiver attributes it to the link's SSRC, and parsing
   * its payload yields exactly the messages' events without raising.
   */
  lemma SentMessagesArrive(l: Link, ms: seq<Message>, timestamp: int)
    requires l.connected
    requires forall k :: 0 <= k < |ms| ==> WellFormed(ms[k])
    requires |Encode(ms)| <= 16
    ensures var r := SendStep(l, Encode(ms), timestamp);
            !r.1 && |r.0.sent| == |l.sent| + 1
            && RemoteDataRead(r.0.sent[|l.sent|]).Returns?
            && RemoteDataRead(r.0.sent[|l.sent|]).value == Rtp(l.id % 0x1_0000_0000, Encode(ms))
            && Scan(Start, RemoteDataRead(r.0.sent[|l.sent|]).value.payload) == Parse(Expected(ms), false)
  {
    AsBytesOfBytes(Encode(ms));
    SendStepEmits(l, Encode(ms), timestamp);
    if ms == [] {
      assert Finish(Start) == Returns([]);
    }
    WellFormedStream(Start, ms);
  }
}
