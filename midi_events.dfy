/**
 * MIDI 1.0 channel messages and ALSA sequencer events: the translation
 * table between status nibbles and event types, the conversions
 * `midi_to_ev` and `ev_to_midi`, and the running-status parser
 * `midi_to_evs` that splits a received byte stream into events.
 *
 * A Python exception is modelled as `Raises`; Python's `None` as `None`.
 */
module MidiEvents {
  import opened Outcomes

  /** The ALSA sequencer event types that the MIDI translation table names. */
  datatype EventType = NoteOff | NoteOn | KeyPress | Controller | PitchBend

  /** The numeric value of each type in ALSA's sequencer event header (`seq_event.h`). */
  function Code(t: EventType): (r: int)
    ensures r > 0  // so `if not type` at the lookup rejects only a missing table entry
  {
    match t
    case NoteOn => 6
    case NoteOff => 7
    case KeyPress => 8
    case Controller => 10
    case PitchBend => 13
  }

  /** `MIDI_TO_EV`: the event type of a status byte whose channel nibble is cleared. */
  function MidiToEvType(status: int): (r: Option<EventType>)
    ensures r.Some? <==> status in {0x80, 0x90, 0xA0, 0xB0, 0xE0}
  {
    if status == 0x80 then Some(NoteOff)
    else if status == 0x90 then Some(NoteOn)
    else if status == 0xA0 then Some(KeyPress)
    else if status == 0xB0 then Some(Controller)
    else if status == 0xE0 then Some(PitchBend)
    else None
  }

  /** `EV_TO_MIDI`: the status nibble of an event type; it undoes `MIDI_TO_EV`. */
  function EvTypeToMidi(t: EventType): (status: int)
    ensures MidiToEvType(status) == Some(t)
  {
    match t
    case NoteOff => 0x80
    case NoteOn => 0x90
    case KeyPress => 0xA0
    case Controller => 0xB0
    case PitchBend => 0xE0
  }

  /** The two tables are exact inverses of each other, in both directions. */
  lemma MidiTableInverse(status: int, t: EventType)
    ensures MidiToEvType(status) == Some(t) <==> EvTypeToMidi(t) == status
  {
  }

  /** Distinct event types have distinct codes. */
  lemma CodeInjective(t: EventType, u: EventType)
    ensures Code(t) == Code(u) <==> t == u
  {
  }

  /** `b & 0xF0` for an octet: the status byte with its channel nibble cleared. */
  function StatusNibble(b: byte): (r: int)
    ensures r % 16 == 0 && r <= b < r + 16
    ensures b >= 0x80 <==> r >= 0x80
  {
    b / 16 * 16
  }

  /**
   * The 8-tuple `(type, flags, tag, queue, timestamp, source, destination, data)`
   * of the alsaseq binding; `data` is the tuple of event parameters.
   */
  datatype AlsaEvent = AlsaEvent(
    evType: int, flags: int, tag: int, queue: int,
    timestamp: (int, int), source: (int, int), destination: (int, int),
    data: seq<int>)

  /** An event as `midi_to_ev` builds it: flags and tag 0, queue 253 (direct dispatch), zero addresses. */
  function MakeEvent(t: EventType, data: seq<int>): AlsaEvent
  {
    AlsaEvent(Code(t), 0, 0, 253, (0, 0), (0, 0), (0, 0), data)
  }

  /**
   * `midi_to_ev`: one MIDI message to an ALSA event. The channel nibble is
   * ignored. It raises on an empty message and on a pitch bend whose length
   * is not 3 (the tuple unpacking fails); it returns `None` for a status
   * outside the table, for poly key pressure, and for a note or controller
   * message whose length is not 3.
   */
  function MidiToEv(event: seq<byte>): (r: Outcome<Option<AlsaEvent>>)
    ensures r.Raises? <==>
      |event| == 0 || (StatusNibble(event[0]) == 0xE0 && |event| != 3)
    ensures r == Returns(None) <==>
      && |event| > 0
      && (|| StatusNibble(event[0]) !in {0x80, 0x90, 0xB0, 0xE0}
          || (StatusNibble(event[0]) in {0x80, 0x90, 0xB0} && |event| != 3))
    ensures r.Returns? && r.value.Some? ==>
      && |event| == 3
      && MidiToEvType(StatusNibble(event[0])).Some?
      && r.value.value.evType == Code(MidiToEvType(StatusNibble(event[0])).value)
  {
    if |event| == 0 then
      Raises
    else
      match MidiToEvType(StatusNibble(event[0]))
      case None => Returns(None)
      case Some(t) =>
        if t == PitchBend then
          if |event| != 3 then Raises
          else
            var lsb: int, msb: int := event[1], event[2];
            Returns(Some(MakeEvent(t, [0, 0, 0, 0, 0, msb * 128 + lsb])))
        else if (t == NoteOn || t == NoteOff) && |event| == 3 then
          Returns(Some(MakeEvent(t, [0, event[1], event[2], 0, 0])))
        else if t == Controller && |event| == 3 then
          Returns(Some(MakeEvent(t, [0, 0, 0, 0, event[1], event[2]])))
        else
          Returns(None)
  }

  /**
   * `ev_to_midi`: an ALSA event to a 3-byte MIDI message. Notes take
   * parameters 1 and 2, controllers 4 and 5, and a pitch bend splits
   * parameter 5 into its high and its low seven bits, in that order. Any
   * other type (the port-subscribed notice 66 included) gives `None`; a
   * parameter tuple too short for the indices used raises.
   */
  function EvToMidi(ev: AlsaEvent): (r: Outcome<Option<seq<int>>>)
    ensures r.Raises? <==>
      || ((ev.evType == Code(NoteOn) || ev.evType == Code(NoteOff)) && |ev.data| < 3)
      || ((ev.evType == Code(Controller) || ev.evType == Code(PitchBend)) && |ev.data| < 6)
    ensures r == Returns(None) <==>
      ev.evType !in {Code(NoteOn), Code(NoteOff), Code(Controller), Code(PitchBend)}
    ensures r.Returns? && r.value.Some? ==>
      |r.value.value| == 3 && MidiToEvType(r.value.value[0]).Some?
  {
    if ev.evType == Code(NoteOn) || ev.evType == Code(NoteOff) then
      if |ev.data| < 3 then Raises
      else
        var t := if ev.evType == Code(NoteOn) then NoteOn else NoteOff;
        Returns(Some([EvTypeToMidi(t), ev.data[1], ev.data[2]]))
    else if ev.evType == Code(Controller) then
      if |ev.data| < 6 then Raises
      else Returns(Some([EvTypeToMidi(Controller), ev.data[4], ev.data[5]]))
    else if ev.evType == Code(PitchBend) then
      if |ev.data| < 6 then Raises
      else
        var n := ev.data[5];
        // `(n >> 7) & 0x7F` and `n & 0x7F`: Python's shift floors, as `/` does here for a positive divisor.
        Returns(Some([EvTypeToMidi(PitchBend), (n / 128) % 128, n % 128]))
    else
      Returns(None)
  }

  /** `midi_to_ev` depends on the status byte only through its high nibble. */
  lemma ChannelIgnored(event: seq<byte>, b: byte)
    requires |event| > 0 && b / 16 == event[0] / 16
    ensures MidiToEv(event[0 := b]) == MidiToEv(event)
  {
    assert StatusNibble(event[0 := b][0]) == StatusNibble(event[0]);
  }

  /**
   * A 3-byte note-off, note-on or controller message on any channel comes
   * back from `midi_to_ev` then `ev_to_midi` with its data bytes and its
   * status nibble, on channel 0.
   */
  lemma RoundTripDropsChannel(m: seq<byte>)
    requires |m| == 3 && StatusNibble(m[0]) in {0x80, 0x90, 0xB0}
    ensures MidiToEv(m).Returns? && MidiToEv(m).value.Some?
    ensures EvToMidi(MidiToEv(m).value.value) == Returns(Some([StatusNibble(m[0]), m[1], m[2]]))
  {
    var t := MidiToEvType(StatusNibble(m[0])).value;
    MidiTableInverse(StatusNibble(m[0]), t);
  }

  /** For 3-byte channel-0 note-off, note-on and controller messages, `ev_to_midi` undoes `midi_to_ev`. */
  lemma ChannelZeroRoundTrip(m: seq<byte>)
    requires |m| == 3 && m[0] in {0x80, 0x90, 0xB0}
    ensures MidiToEv(m).Returns? && MidiToEv(m).value.Some?
    ensures EvToMidi(MidiToEv(m).value.value) == Returns(Some(m))
  {
    RoundTripDropsChannel(m);
    assert [StatusNibble(m[0]), m[1], m[2]] == m;
  }

  /**
   * `ev_to_midi` on a pitch bend gives two 7-bit data bytes; for a value in
   * 0 .. 2^14 - 1 the first shifted left by seven plus the second is the value.
   */
  lemma PitchBendSplit(ev: AlsaEvent)
    requires ev.evType == Code(PitchBend) && |ev.data| >= 6
    ensures var r := EvToMidi(ev);
      && r.Returns? && r.value.Some? && r.value.value[0] == 0xE0
      && 0 <= r.value.value[1] < 128 && 0 <= r.value.value[2] < 128
      && (0 <= ev.data[5] < 0x4000 ==> r.value.value[1] * 128 + r.value.value[2] == ev.data[5])
  {
    var n := ev.data[5];
    if 0 <= n < 0x4000 {
      assert n / 128 < 128;
      assert (n / 128) % 128 == n / 128;
    }
  }

  /**
   * `midi_to_ev` reads a pitch bend's data as (LSB, MSB) but `ev_to_midi`
   * writes (MSB, LSB): a pitch bend message comes back with its two data
   * bytes swapped.
   */
  lemma PitchBendRoundTripSwaps(m: seq<byte>)
    requires |m| == 3 && StatusNibble(m[0]) == 0xE0 && m[1] < 128 && m[2] < 128
    ensures MidiToEv(m).Returns? && MidiToEv(m).value.Some?
    ensures EvToMidi(MidiToEv(m).value.value) == Returns(Some([0xE0, m[2], m[1]]))
  {
    var n: int := (m[2] as int) * 128 + m[1];
    assert n / 128 == m[2] && n % 128 == m[1];
  }

  /** The list `midi_to_evs` is collecting, or the empty text `""` it holds after an 0xF0 ... 0x7F run. */
  datatype Pending = Collected(bytes: seq<byte>) | EmptyText

  /** `len(data)`. */
  function Length(p: Pending): nat
  {
    match p
    case Collected(b) => |b|
    case EmptyText => 0
  }

  /** The loop variables `current`, `data` and `evlen` of `midi_to_evs`. */
  datatype Scanner = Scanner(current: byte, data: Pending, evlen: nat)

  /** The loop variables before the first byte. */
  const Start: Scanner := Scanner(0, Collected([]), 2)

  /** Data bytes per message for a status: one for exactly 0xC0 and 0xD0, two for every other status. */
  function GroupLength(status: byte): (r: nat)
    ensures r == 1 || r == 2
    ensures r == 1 <==> status in {0xC0, 0xD0}
  {
    if status == 0xC0 || status == 0xD0 then 1 else 2
  }

  /** What `midi_to_evs` produces: the values it yields, in order, and whether it then raises. */
  datatype Parse = Parse(events: seq<Option<AlsaEvent>>, raised: bool)

  /** `evs` yielded before everything in `p`. */
  function Prepend(evs: seq<Option<AlsaEvent>>, p: Parse): Parse
  {
    Parse(evs + p.events, p.raised)
  }

  /** `yield midi_to_ev(...)`: one value, or the exception `midi_to_ev` raises. */
  function Yield(o: Outcome<Option<AlsaEvent>>): Outcome<seq<Option<AlsaEvent>>>
  {
    match o
    case Returns(e) => Returns([e])
    case Raises => Raises
  }

  /**
   * One pass of the loop of `midi_to_evs` over byte `c`: the next values of
   * the loop variables and what the pass yields, or `Raises`. Appending to
   * the empty text raises, and so does `midi_to_ev` of it.
   */
  function Feed(st: Scanner, c: byte): (r: (Scanner, Outcome<seq<Option<AlsaEvent>>>))
    ensures c >= 0x80 ==> r == (Scanner(c, Collected([c]), GroupLength(c)), Returns([]))
    ensures c < 0x80 ==> r.0.current == st.current && r.0.evlen == st.evlen
    ensures c < 0x80 && st.data.EmptyText? ==> r.1.Raises?
    ensures r.1.Returns? ==> |r.1.value| <= 1
    ensures r.1.Returns? && |r.1.value| == 1 ==> c < 0x80 && st.data.Collected?
  {
    if c >= 0x80 then
      (Scanner(c, Collected([c]), GroupLength(c)), Returns([]))
    else if st.current != 0xF0 && Length(st.data) == st.evlen then
      match st.data
      case EmptyText => (st, Raises)
      case Collected(b) => (st.(data := Collected([st.current])), Yield(MidiToEv(b + [c])))
    else if st.current == 0xF0 && c == 0x7F then
      match st.data
      case EmptyText => (st, Raises)
      case Collected(b) => (st.(data := EmptyText), Yield(MidiToEv(b)))
    else
      match st.data
      case EmptyText => (st, Raises)
      case Collected(b) => (st.(data := Collected(b + [c])), Returns([]))
  }

  /** After the loop: a collected pair (status and one data byte) is still converted. */
  function Finish(st: Scanner): (r: Outcome<seq<Option<AlsaEvent>>>)
    ensures Length(st.data) != 2 ==> r == Returns([])
    ensures r.Returns? ==> |r.value| <= 1
    ensures r.Raises? ==> st.data.Collected? && |st.data.bytes| == 2 && MidiToEv(st.data.bytes).Raises?
  {
    match st.data
    case Collected(b) => if |b| == 2 then Yield(MidiToEv(b)) else Returns([])
    case EmptyText => Returns([])
  }

  /** What `midi_to_evs` produces from the rest of its input, with the loop variables at `st`. */
  function Scan(st: Scanner, rest: seq<byte>): (r: Parse)
    ensures |r.events| <= |rest| + 1
    decreases |rest|
  {
    if rest == [] then
      match Finish(st)
      case Returns(evs) => Parse(evs, false)
      case Raises => Parse([], true)
    else
      var (next, out) := Feed(st, rest[0]);
      match out
      case Raises => Parse([], true)
      case Returns(evs) => Prepend(evs, Scan(next, rest[1..]))
  }

  /** One step of `Scan`: a raising pass ends the output, any other prepends what it yields. */
  lemma ScanStep(st: Scanner, rest: seq<byte>, next: Scanner, out: Outcome<seq<Option<AlsaEvent>>>)
    requires rest != [] && Feed(st, rest[0]) == (next, out)
    ensures out.Raises? ==> Scan(st, rest) == Parse([], true)
    ensures out.Returns? ==> Scan(st, rest) == Prepend(out.value, Scan(next, rest[1..]))
  {
  }

  /**
   * The body of the loop of `midi_to_evs` for byte `c`, with the loop
   * variables at `st`: their next values and what the pass yields. It is the
   * source's statement sequence, updating `current`, `data` and `evlen` in
   * turn; `Feed` is the same step as a value, its specification, which the
   * recursive `Scan` and the lemmas about it use. Keeping the body here keeps
   * the proof obligation of the loop in `MidiToEvs` small.
   */
  method Advance(st: Scanner, c: byte) returns (next: Scanner, out: Outcome<seq<Option<AlsaEvent>>>)
    ensures (next, out) == Feed(st, c)
  {
    var current, data, evlen := st.current, st.data, st.evlen;
    out := Returns([]);
    if c >= 0x80 {
      current := c;
      data := Collected([current]);
      evlen := if current == 0xC0 || current == 0xD0 then 1 else 2;
    } else if current != 0xF0 && Length(data) == evlen {
      if data.EmptyText? {
        return st, Raises;
      }
      var ev := MidiToEv(data.bytes + [c]);
      out := Yield(ev);
      data := Collected([current]);
    } else if current == 0xF0 && c == 0x7F {
      if data.EmptyText? {
        return st, Raises;
      }
      out := Yield(MidiToEv(data.bytes));
      data := EmptyText;
    } else {
      if data.EmptyText? {
        return st, Raises;
      }
      data := Collected(data.bytes + [c]);
    }
    next := Scanner(current, data, evlen);
  }

  /**
   * `midi_to_evs`: the generator loop over the bytes of `source`, each
   * yielded value appended to `events`; `raised` tells whether the
   * generator raised after yielding them.
   */
  method MidiToEvs(source: seq<byte>) returns (events: seq<Option<AlsaEvent>>, raised: bool)
    ensures Parse(events, raised) == Scan(Start, source)
  {
    var current: byte := 0;
    var data: Pending := Collected([]);
    var evlen: nat := 2;
    events, raised := [], false;
    var i := 0;
    while i < |source|
      invariant 0 <= i <= |source|
      invariant Prepend(events, Scan(Scanner(current, data, evlen), source[i..])) == Scan(Start, source)
    {
      var c := source[i];
      assert source[i..][0] == c && source[i..][1..] == source[i + 1..];
      var next, out := Advance(Scanner(current, data, evlen), c);
      ScanStep(Scanner(current, data, evlen), source[i..], next, out);
      if out.Raises? {
        raised := true;
        return;
      }
      events := events + out.value;
      current, data, evlen := next.current, next.data, next.evlen;
      i := i + 1;
    }
    if Length(data) == 2 {
      var ev := MidiToEv(data.bytes);
      if ev.Raises? {
        raised := true;
        return;
      }
      events := events + [ev.value];
    }
  }

  /** The loop variables right after status byte `s`. */
  function AfterStatus(s: byte): Scanner
  {
    Scanner(s, Collected([s]), GroupLength(s))
  }

  /** A status byte discards whatever was being collected and starts over at that status. */
  lemma StatusRestarts(st: Scanner, c: byte, rest: seq<byte>)
    requires c >= 0x80
    ensures Scan(st, [c] + rest) == Scan(AfterStatus(c), rest)
  {
    assert ([c] + rest)[0] == c && ([c] + rest)[1..] == rest;
    ScanStep(st, [c] + rest, AfterStatus(c), Returns([]));
    assert [] + Scan(AfterStatus(c), rest).events == Scan(AfterStatus(c), rest).events;
  }

  /** Data bytes that complete one message of status `s`: the right number of them, each below 0x80. */
  predicate IsGroup(s: byte, g: seq<byte>)
  {
    |g| == GroupLength(s) && forall i :: 0 <= i < |g| ==> g[i] < 0x80
  }

  /** Groups written one after another. */
  function Concat(gs: seq<seq<byte>>): seq<byte>
    decreases |gs|
  {
    if gs == [] then [] else gs[0] + Concat(gs[1..])
  }

  /** A complete message never makes `midi_to_ev` raise. */
  lemma GroupConverts(s: byte, g: seq<byte>)
    requires s >= 0x80 && IsGroup(s, g)
    ensures MidiToEv([s] + g).Returns?
  {
    assert ([s] + g)[0] == s;
  }

  /** What `midi_to_ev` returns for each group under status `s`, in order. */
  function Converted(s: byte, gs: seq<seq<byte>>): seq<Option<AlsaEvent>>
    requires s >= 0x80 && forall k :: 0 <= k < |gs| ==> IsGroup(s, gs[k])
    decreases |gs|
  {
    if gs == [] then []
    else
      GroupConverts(s, gs[0]);
      [MidiToEv([s] + gs[0]).value] + Converted(s, gs[1..])
  }

  /** After status `s`, one complete group of data bytes yields exactly its event. */
  lemma OneGroup(s: byte, g: seq<byte>, rest: seq<byte>)
    requires s >= 0x80 && s != 0xF0 && IsGroup(s, g)
    ensures MidiToEv([s] + g).Returns?
    ensures Scan(AfterStatus(s), g + rest) == Prepend([MidiToEv([s] + g).value], Scan(AfterStatus(s), rest))
  {
    GroupConverts(s, g);
    var st := AfterStatus(s);
    var ev := MidiToEv([s] + g).value;
    var input := g + rest;
    assert input[0] == g[0];
    if GroupLength(s) == 1 {
      assert g == [g[0]] && input[1..] == rest;
      ScanStep(st, input, st, Returns([ev]));
    } else {
      var mid := Scanner(s, Collected([s, g[0]]), 2);
      assert g == [g[0], g[1]] && input[1..][0] == g[1] && input[1..][1..] == rest;
      assert [s, g[0]] + [g[1]] == [s] + g;
      assert [s] + [g[0]] == [s, g[0]];
      ScanStep(st, input, mid, Returns([]));
      ScanStep(mid, input[1..], st, Returns([ev]));
      assert [] + Scan(mid, input[1..]).events == Scan(mid, input[1..]).events;
    }
  }

  /**
   * Running status: after status `s`, every further complete group of data
   * bytes yields one more event of that status, in order.
   */
  lemma {:induction false} RunningStatus(s: byte, gs: seq<seq<byte>>, rest: seq<byte>)
    requires s >= 0x80 && s != 0xF0
    requires forall k :: 0 <= k < |gs| ==> IsGroup(s, gs[k])
    ensures Scan(AfterStatus(s), Concat(gs) + rest) == Prepend(Converted(s, gs), Scan(AfterStatus(s), rest))
    decreases |gs|
  {
    if gs == [] {
      assert Concat(gs) + rest == rest;
      assert [] + Scan(AfterStatus(s), rest).events == Scan(AfterStatus(s), rest).events;
    } else {
      var tail := Concat(gs[1..]) + rest;
      ConcatFirst(gs, rest);
      OneGroup(s, gs[0], tail);
      RunningStatus(s, gs[1..], rest);
      var ev := MidiToEv([s] + gs[0]).value;
      PrependTwice([ev], Converted(s, gs[1..]), Scan(AfterStatus(s), rest));
    }
  }

  /** Splitting the first group off a concatenation. */
  lemma ConcatFirst(gs: seq<seq<byte>>, rest: seq<byte>)
    requires gs != []
    ensures Concat(gs) + rest == gs[0] + (Concat(gs[1..]) + rest)
  {
  }

  /** Prepending twice is prepending the concatenation. */
  lemma PrependTwice(a: seq<Option<AlsaEvent>>, b: seq<Option<AlsaEvent>>, p: Parse)
    ensures Prepend(a, Prepend(b, p)) == Prepend(a + b, p)
  {
    assert a + (b + p.events) == (a + b) + p.events;
  }

  /** One status byte followed by complete groups of data bytes, the later ones under running status. */
  datatype Message = Message(status: byte, groups: seq<seq<byte>>)

  predicate WellFormed(m: Message)
  {
    m.status >= 0x80 && m.status != 0xF0 && forall k :: 0 <= k < |m.groups| ==> IsGroup(m.status, m.groups[k])
  }

  /** The byte stream of a list of messages. */
  function Encode(ms: seq<Message>): seq<byte>
    decreases |ms|
  {
    if ms == [] then [] else [ms[0].status] + Concat(ms[0].groups) + Encode(ms[1..])
  }

  /** The events the messages stand for: each group converted under its message's status. */
  function Expected(ms: seq<Message>): seq<Option<AlsaEvent>>
    requires forall k :: 0 <= k < |ms| ==> WellFormed(ms[k])
    decreases |ms|
  {
    if ms == [] then []
    else
      assert WellFormed(ms[0]);
      Converted(ms[0].status, ms[0].groups) + Expected(ms[1..])
  }

  /**
   * A stream made of complete messages parses, without raising, into exactly
   * the conversions of their groups, in order.
   */
  lemma {:induction false} WellFormedStream(st: Scanner, ms: seq<Message>)
    requires forall k :: 0 <= k < |ms| ==> WellFormed(ms[k])
    requires ms != [] || Finish(st) == Returns([])
    ensures Scan(st, Encode(ms)) == Parse(Expected(ms), false)
    decreases |ms|
  {
    if ms == [] {
      assert Encode(ms) == [];
    } else {
      var m := ms[0];
      var tail := Encode(ms[1..]);
      assert Encode(ms) == [m.status] + (Concat(m.groups) + tail);
      StatusRestarts(st, m.status, Concat(m.groups) + tail);
      RunningStatus(m.status, m.groups, tail);
      assert Finish(AfterStatus(m.status)) == Returns([]);
      WellFormedStream(AfterStatus(m.status), ms[1..]);
    }
  }

  /** The source's own example: a note-on then a note-off, each with its two data bytes. */
  lemma NoteOnNoteOffExample()
    ensures Scan(Start, [0x90, 10, 10, 0x80, 10, 0]) == Parse([
      Some(MakeEvent(NoteOn, [0, 10, 10, 0, 0])),
      Some(MakeEvent(NoteOff, [0, 10, 0, 0, 0]))], false)
  {
    var ms := [Message(0x90, [[10, 10]]), Message(0x80, [[10, 0]])];
    assert Concat([[10, 10]]) == [10, 10];
    assert Concat([[10, 0]]) == [10, 0];
    assert Encode(ms[1..]) == [0x80, 10, 0];
    assert Encode(ms) == [0x90, 10, 10, 0x80, 10, 0];
    WellFormedStream(Start, ms);
    assert Converted(0x90, [[10, 10]]) == [Some(MakeEvent(NoteOn, [0, 10, 10, 0, 0]))];
    assert Converted(0x80, [[10, 0]]) == [Some(MakeEvent(NoteOff, [0, 10, 0, 0, 0]))];
  }

  /** A pitch bend cut after its first data byte makes the generator raise at the end, yielding nothing. */
  lemma TruncatedPitchBendRaises(d: byte)
    requires d < 0x80
    ensures Scan(Start, [0xE0, d]) == Parse([], true)
  {
    var mid := Scanner(0xE0, Collected([0xE0, d]), 2);
    assert [0xE0, d][1..] == [d] && [d][1..] == [];
    assert [0xE0] + [d] == [0xE0, d];
    ScanStep(Start, [0xE0, d], AfterStatus(0xE0), Returns([]));
    ScanStep(AfterStatus(0xE0), [d], mid, Returns([]));
  }

  /**
   * After an 0xF0 run closed by 0x7F the collected data is the empty text:
   * the run yields `None`, and any data byte after it makes the generator raise.
   */
  lemma DataAfterSystemRunRaises(d: byte)
    requires d < 0x80
    ensures Scan(Start, [0xF0, 0x7F, d]) == Parse([None], true)
  {
    var afterRun := Scanner(0xF0, EmptyText, 2);
    assert [0xF0, 0x7F, d][1..] == [0x7F, d] && [0x7F, d][1..] == [d];
    ScanStep(Start, [0xF0, 0x7F, d], AfterStatus(0xF0), Returns([]));
    ScanStep(AfterStatus(0xF0), [0x7F, d], afterRun, Returns([None]));
    ScanStep(afterRun, [d], afterRun, Raises);
  }
}
