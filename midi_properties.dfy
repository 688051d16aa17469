/** Properties of the decoder of src/midi.cpp, stated about the functions
    that define it (LoadMidi is proved to compute Decode). */
module MidiProperties {
  import opened MidiTypes
  import opened MidiReader
  import opened MidiDecoder

  // ---------------------------------------------------------------------
  // Header

  /** The header layout: any four identifier bytes and any declared length
      are accepted, exactly six payload bytes are read as format, ntracks
      and tickdiv (stored as int16_t), and the first track chunk starts at
      offset 14. */
  lemma DecodeHeader(id: Bytes, chunklen: uint32, format: uint16, ntracks: uint16, tickdiv: uint16, rest: Bytes)
    requires |id| == 4
    ensures var data := id + EncodeUint32(chunklen) + EncodeUint16(format) + EncodeUint16(ntracks) + EncodeUint16(tickdiv) + rest;
            Decode(data) == ReadTracks(data, Midi(ToInt16(format), ToInt16(ntracks), ToInt16(tickdiv), None, [], []), 0, 14)
  {
    HeaderReads(id, chunklen, format, ntracks, tickdiv, rest);
  }

  /** The five header reads on the layout of DecodeHeader. */
  lemma HeaderReads(id: Bytes, chunklen: uint32, format: uint16, ntracks: uint16, tickdiv: uint16, rest: Bytes)
    requires |id| == 4
    ensures var data := id + EncodeUint32(chunklen) + EncodeUint16(format) + EncodeUint16(ntracks) + EncodeUint16(tickdiv) + rest;
            && ReadString(data, 0, 4) == Ok(Read(id, 4))
            && ReadUint32(data, 4) == Ok(Read(chunklen, 8))
            && ReadUint16(data, 8) == Ok(Read(format, 10))
            && ReadUint16(data, 10) == Ok(Read(ntracks, 12))
            && ReadUint16(data, 12) == Ok(Read(tickdiv, 14))
  {
    var data := id + EncodeUint32(chunklen) + EncodeUint16(format) + EncodeUint16(ntracks) + EncodeUint16(tickdiv) + rest;
    assert data[0..4] == id;
    assert data == id + EncodeUint32(chunklen) + (EncodeUint16(format) + EncodeUint16(ntracks) + EncodeUint16(tickdiv) + rest);
    ReadUint32Encode(id, chunklen, EncodeUint16(format) + EncodeUint16(ntracks) + EncodeUint16(tickdiv) + rest);
    assert data == id + EncodeUint32(chunklen) + EncodeUint16(format) + (EncodeUint16(ntracks) + EncodeUint16(tickdiv) + rest);
    ReadUint16Encode(id + EncodeUint32(chunklen), format, EncodeUint16(ntracks) + EncodeUint16(tickdiv) + rest);
    assert data == id + EncodeUint32(chunklen) + EncodeUint16(format) + EncodeUint16(ntracks) + (EncodeUint16(tickdiv) + rest);
    ReadUint16Encode(id + EncodeUint32(chunklen) + EncodeUint16(format), ntracks, EncodeUint16(tickdiv) + rest);
    ReadUint16Encode(id + EncodeUint32(chunklen) + EncodeUint16(format) + EncodeUint16(ntracks), tickdiv, rest);
  }

  /** A buffer that ends right after the header while declaring at least one
      track fails: no partial document is returned. */
  lemma TruncatedAfterHeader(data: Bytes)
    requires |data| == 14
    requires ToInt16(data[10] as int * 0x100 + data[11]) > 0
    ensures Decode(data) == Err(NotEnoughData)
  {
    var midi := Midi(ToInt16(data[8] as int * 0x100 + data[9]), ToInt16(data[10] as int * 0x100 + data[11]),
                     ToInt16(data[12] as int * 0x100 + data[13]), None, [], []);
    assert ReadUint16(data, 10) == Ok(Read(data[10] as int * 0x100 + data[11], 12));
    assert Decode(data) == ReadTracks(data, midi, 0, 14);
  }

  // ---------------------------------------------------------------------
  // Track chunks

  /** A track chunk at `pos`: any four identifier bytes are accepted, the
      big-endian length that follows delimits the event stream, and the
      event loop starts at `pos + 8` with a fresh track, tick count 0 and
      running status 0. */
  lemma TrackChunkLayout(prefix: Bytes, id: Bytes, chunklen: uint32, rest: Bytes, midi: Midi, itrack: nat)
    requires |id| == 4
    ensures var data := prefix + id + EncodeUint32(chunklen) + rest;
            ReadTrack(data, midi, itrack, |prefix|)
            == RunTrack(data, midi.format, itrack, |prefix| + 8 + chunklen, StartTrack(|prefix| + 8, midi.sequenceName))
  {
    var data := prefix + id + EncodeUint32(chunklen) + rest;
    assert ReadString(data, |prefix|, 4) == Ok(Read(id, |prefix| + 4)) by {
      assert data[|prefix|..|prefix| + 4] == id;
    }
    assert ReadUint32(data, |prefix| + 4) == Ok(Read(chunklen, |prefix| + 8)) by {
      ReadUint32Encode(prefix + id, chunklen, rest);
    }
  }

  // ---------------------------------------------------------------------
  // One event: delta-time and status byte

  /** The cursor after the delta-time of an event that starts at
      `|prefix|`. */
  function AfterDelta(prefix: Bytes, delta: uint32): nat {
    |prefix| + |EncodeVlq(delta)|
  }

  /** The loop state once the delta-time has been added to the tick
      counter, with the cursor at `pos` and the running status `status`. */
  function Advanced(st: TrackState, delta: uint32, pos: nat, status: uint8): TrackState {
    st.(pos := pos, ticks := AddTicks(st.ticks, delta), total := st.total + delta, status := status)
  }

  /** One iteration whose delta-time has been read up to `next`, where the
      byte at `next` is a data byte: it is left unread and the previous
      status applies. */
  lemma StepRunning(data: Bytes, format: int16, itrack: nat, st: TrackState, delta: uint32, next: nat)
    requires Vlq(data, st.pos) == Ok(Read(delta, next)) && next < |data| && data[next] < 0x80
    ensures Step(data, format, itrack, st)
            == Dispatch(data, format, itrack, st.status, Advanced(st, delta, next, st.status))
  {
    assert ReadUint8(data, next) == Ok(Read(data[next], next + 1));
  }

  /** One iteration whose delta-time has been read up to `next`, where the
      byte at `next` is 0x80 or above: it is consumed as the status byte. */
  lemma StepExplicit(data: Bytes, format: int16, itrack: nat, st: TrackState, delta: uint32, next: nat)
    requires Vlq(data, st.pos) == Ok(Read(delta, next)) && next < |data| && data[next] >= 0x80
    ensures Step(data, format, itrack, st)
            == Dispatch(data, format, itrack, data[next], Advanced(st, delta, next + 1, data[next]))
  {
    assert ReadUint8(data, next) == Ok(Read(data[next], next + 1));
  }

  /** The delta-time encoded at `|prefix|` reads back, followed by `b`. */
  lemma DeltaThenByte(prefix: Bytes, delta: uint32, b: uint8, rest: Bytes)
    ensures var data := prefix + EncodeVlq(delta) + [b] + rest;
            Vlq(data, |prefix|) == Ok(Read(delta, AfterDelta(prefix, delta))) &&
            AfterDelta(prefix, delta) < |data| && data[AfterDelta(prefix, delta)] == b
  {
    var data := prefix + EncodeVlq(delta) + [b] + rest;
    VlqRoundTrip(prefix, delta, [b] + rest);
    assert data == prefix + EncodeVlq(delta) + ([b] + rest);
  }

  /** Running status: a byte below 0x80 after the delta-time is not
      consumed, and the event body is read with the previous status. */
  lemma RunningStatus(prefix: Bytes, delta: uint32, b: uint8, rest: Bytes,
                      format: int16, itrack: nat, st: TrackState)
    requires st.pos == |prefix| && b < 0x80
    ensures var data := prefix + EncodeVlq(delta) + [b] + rest;
            Step(data, format, itrack, st)
            == Dispatch(data, format, itrack, st.status,
                        Advanced(st, delta, AfterDelta(prefix, delta), st.status))
  {
    DeltaThenByte(prefix, delta, b, rest);
    StepRunning(prefix + EncodeVlq(delta) + [b] + rest, format, itrack, st, delta, AfterDelta(prefix, delta));
  }

  /** A status byte (0x80 and above, including 0xFF, 0xF0 and 0xF7) is
      consumed and becomes the running status. */
  lemma ExplicitStatus(prefix: Bytes, delta: uint32, b: uint8, rest: Bytes,
                       format: int16, itrack: nat, st: TrackState)
    requires st.pos == |prefix| && b >= 0x80
    ensures var data := prefix + EncodeVlq(delta) + [b] + rest;
            Step(data, format, itrack, st)
            == Dispatch(data, format, itrack, b,
                        Advanced(st, delta, AfterDelta(prefix, delta) + 1, b))
  {
    DeltaThenByte(prefix, delta, b, rest);
    StepExplicit(prefix + EncodeVlq(delta) + [b] + rest, format, itrack, st, delta, AfterDelta(prefix, delta));
  }

  /** Before any status byte has been seen (status 0), a data byte matches
      no branch: the iteration consumes only the delta-time. */
  lemma NoStatusYet(prefix: Bytes, delta: uint32, b: uint8, rest: Bytes,
                    format: int16, itrack: nat, st: TrackState)
    requires st.pos == |prefix| && b < 0x80 && st.status == 0
    ensures Step(prefix + EncodeVlq(delta) + [b] + rest, format, itrack, st)
            == Ok(Advanced(st, delta, AfterDelta(prefix, delta), 0))
  {
    RunningStatus(prefix, delta, b, rest, format, itrack, st);
  }

  // ---------------------------------------------------------------------
  // Event bodies

  /** Note-On (status 0x90 to 0x9F) appends one event: the channel is the
      low nibble, note and velocity are the next two bytes as read (no
      range check against NoteMin/NoteMax, velocity 0 kept), and the start
      time is the tick counter. */
  lemma NoteOn(prefix: Bytes, status: uint8, note: uint8, velocity: uint8, rest: Bytes, st: TrackState)
    requires st.pos == |prefix| && 0x90 <= status < 0xA0
    ensures ChannelEvent(prefix + [note, velocity] + rest, status, st)
            == Ok(st.(pos := |prefix| + 2,
                      track := st.track.(events := st.track.events + [Event(status - 0x90, note, velocity, st.ticks)])))
  {
    var data := prefix + [note, velocity] + rest;
    assert data[|prefix|] == note && data[|prefix| + 1] == velocity;
  }

  /** Note-On with fewer than two data bytes left fails. */
  lemma NoteOnTruncated(data: Bytes, status: uint8, st: TrackState)
    requires 0x90 <= status < 0xA0 && st.pos + 2 > |data|
    ensures ChannelEvent(data, status, st) == Err(NotEnoughData)
  {
  }

  /** Every other status with a high nibble of 8 or more (including 0xF1
      to 0xF6 and 0xF8 to 0xFE) skips one data byte for 0xC_ and 0xD_ and
      two otherwise, whatever the buffer holds: the skip is not checked
      against the buffer size. */
  lemma ChannelSkip(data: Bytes, format: int16, itrack: nat, status: uint8, st: TrackState)
    requires status >= 0x80 && status / 0x10 != 0x9 && status != 0xFF && status != 0xF0 && status != 0xF7
    ensures Dispatch(data, format, itrack, status, st)
            == Ok(st.(pos := st.pos + if 0xC0 <= status < 0xE0 then 1 else 2))
  {
    assert HighNibble(status) >= 0x8;
    assert 0xC <= HighNibble(status) < 0xE <==> 0xC0 <= status < 0xE0;
  }

  /** A SysEx event (0xF0 or 0xF7) skips its declared length past the
      length itself, unchecked, and changes nothing else. */
  lemma SysExSkip(prefix: Bytes, n: uint32, rest: Bytes, format: int16, itrack: nat, status: uint8, st: TrackState)
    requires st.pos == |prefix| && (status == 0xF0 || status == 0xF7)
    ensures Dispatch(prefix + EncodeVlq(n) + rest, format, itrack, status, st)
            == Ok(st.(pos := |prefix| + |EncodeVlq(n)| + n))
  {
    VlqRoundTrip(prefix, n, rest);
  }

  /** A meta event of any type but 0x03 skips its declared length,
      unchecked, and changes nothing else. */
  lemma MetaSkip(prefix: Bytes, kind: uint8, n: uint32, rest: Bytes, format: int16, itrack: nat, st: TrackState)
    requires st.pos == |prefix| && kind != 0x03
    ensures MetaEvent(prefix + [kind] + EncodeVlq(n) + rest, format, itrack, st)
            == Ok(st.(pos := |prefix| + 1 + |EncodeVlq(n)| + n))
  {
    var data := prefix + [kind] + EncodeVlq(n) + rest;
    assert data[|prefix|] == kind;
    VlqRoundTrip(prefix + [kind], n, rest);
  }

  /** The Sequence/Track Name meta event (type 0x03) reads its payload and
      stores it as the document's sequence name in track 0 of a format 0 or
      1 file (or any negative format), and as the track's name otherwise; a
      later name replaces an earlier one. */
  lemma MetaName(prefix: Bytes, name: Bytes, rest: Bytes, format: int16, itrack: nat, st: TrackState)
    requires st.pos == |prefix| && |name| < 0x1_0000_0000
    ensures var data := prefix + [0x03] + EncodeVlq(|name|) + name + rest;
            var next := |prefix| + 1 + |EncodeVlq(|name|)| + |name|;
            MetaEvent(data, format, itrack, st)
            == if format < 2 && itrack == 0 then Ok(st.(pos := next, sequenceName := name))
               else Ok(st.(pos := next, track := st.track.(name := name)))
  {
    var data := prefix + [0x03] + EncodeVlq(|name|) + name + rest;
    var p := |prefix| + 1 + |EncodeVlq(|name|)|;
    assert data[|prefix|] == 0x03;
    assert data == prefix + [0x03] + EncodeVlq(|name|) + (name + rest);
    VlqRoundTrip(prefix + [0x03], |name|, name + rest);
    assert data[p..p + |name|] == name;
  }

  /** A name whose declared length runs past the end of the buffer fails,
      unlike the other skips. */
  lemma MetaNameTruncated(prefix: Bytes, n: uint32, rest: Bytes, format: int16, itrack: nat, st: TrackState)
    requires st.pos == |prefix| && |rest| < n
    ensures MetaEvent(prefix + [0x03] + EncodeVlq(n) + rest, format, itrack, st) == Err(NotEnoughData)
  {
    var data := prefix + [0x03] + EncodeVlq(n) + rest;
    assert data[|prefix|] == 0x03;
    VlqRoundTrip(prefix + [0x03], n, rest);
  }

  /** A complete Note-On event with its own status byte: the tick counter
      advances by the delta-time, the status becomes the running status, and
      the event is appended at the new tick count. */
  lemma NoteOnEvent(prefix: Bytes, delta: uint32, channel: uint8, note: uint8, velocity: uint8, rest: Bytes,
                    format: int16, itrack: nat, st: TrackState)
    requires st.pos == |prefix| && channel < 0x10
    ensures var data := prefix + EncodeVlq(delta) + [0x90 + channel, note, velocity] + rest;
            var s := Advanced(st, delta, AfterDelta(prefix, delta) + 3, 0x90 + channel);
            Step(data, format, itrack, st)
            == Ok(s.(track := st.track.(events := st.track.events + [Event(channel, note, velocity, s.ticks)])))
  {
    var b := 0x90 + channel;
    var data := prefix + EncodeVlq(delta) + [b, note, velocity] + rest;
    NoteOnLayout(prefix + EncodeVlq(delta), b, note, velocity, rest);
    DeltaThenByte(prefix, delta, b, [note, velocity] + rest);
    var next := AfterDelta(prefix, delta);
    assert data[next + 1] == note && data[next + 2] == velocity;
    NoteOnAt(data, format, itrack, st, delta, next, channel);
  }

  /** A Note-On event whose delta-time has been read up to `next`, where
      the status byte sits, followed by its two data bytes. */
  lemma NoteOnAt(data: Bytes, format: int16, itrack: nat, st: TrackState, delta: uint32, next: nat, channel: uint8)
    requires Vlq(data, st.pos) == Ok(Read(delta, next)) && next + 2 < |data|
    requires channel < 0x10 && data[next] == 0x90 + channel
    ensures var s := Advanced(st, delta, next + 3, 0x90 + channel);
            Step(data, format, itrack, st)
            == Ok(s.(track := st.track.(events := st.track.events + [Event(channel, data[next + 1], data[next + 2], s.ticks)])))
  {
    var s := Advanced(st, delta, next + 1, 0x90 + channel);
    StepExplicit(data, format, itrack, st, delta, next);
    DispatchNoteOn(data, format, itrack, 0x90 + channel, s);
    assert ReadUint8(data, next + 1) == Ok(Read(data[next + 1], next + 2));
    assert ReadUint8(data, next + 2) == Ok(Read(data[next + 2], next + 3));
  }

  /** The two ways the bytes of a Note-On event are split above. */
  lemma NoteOnLayout(head: Bytes, b: uint8, note: uint8, velocity: uint8, rest: Bytes)
    ensures head + [b, note, velocity] + rest == head + [b] + ([note, velocity] + rest)
  {
    assert head + [b, note, velocity] == head + [b] + [note, velocity];
  }

  /** A status byte 0x90 to 0x9F goes to the channel-event branch. */
  lemma DispatchNoteOn(data: Bytes, format: int16, itrack: nat, status: uint8, st: TrackState)
    requires 0x90 <= status < 0xA0
    ensures Dispatch(data, format, itrack, status, st) == ChannelEvent(data, status, st)
  {
    assert HighNibble(status) == 0x9;
  }

  /** A complete event of any other channel kind with its own status byte:
      the tick counter advances, the status becomes the running status, and
      one or two data bytes are skipped. */
  lemma ChannelSkipEvent(prefix: Bytes, delta: uint32, status: uint8, rest: Bytes,
                         format: int16, itrack: nat, st: TrackState)
    requires st.pos == |prefix|
    requires status >= 0x80 && status / 0x10 != 0x9 && status != 0xFF && status != 0xF0 && status != 0xF7
    ensures Step(prefix + EncodeVlq(delta) + [status] + rest, format, itrack, st)
            == Ok(Advanced(st, delta, AfterDelta(prefix, delta) + 1 + (if 0xC0 <= status < 0xE0 then 1 else 2), status))
  {
    ExplicitStatus(prefix, delta, status, rest, format, itrack, st);
    ChannelSkip(prefix + EncodeVlq(delta) + [status] + rest, format, itrack, status,
                Advanced(st, delta, AfterDelta(prefix, delta) + 1, status));
  }

  /** The unchecked skip: a channel event whose status byte is the last
      byte of the buffer still succeeds, leaving the cursor past the end. */
  lemma SkipPastEnd(prefix: Bytes, delta: uint32, status: uint8, format: int16, itrack: nat, st: TrackState)
    requires st.pos == |prefix|
    requires status >= 0x80 && status / 0x10 != 0x9 && status != 0xFF && status != 0xF0 && status != 0xF7
    ensures var data := prefix + EncodeVlq(delta) + [status];
            Step(data, format, itrack, st).Ok? && Step(data, format, itrack, st).value.pos > |data|
  {
    var data := prefix + EncodeVlq(delta) + [status];
    assert data + [] == data;
    ChannelSkipEvent(prefix, delta, status, [], format, itrack, st);
  }

  // ---------------------------------------------------------------------
  // Start times

  /** Start times in stream order never decrease. */
  predicate Sorted(events: seq<Event>) {
    forall i, j | 0 <= i < j < |events| :: events[i].startTicks <= events[j].startTicks
  }

  /** What the event loop keeps while the sum of the delta-times read so far
      fits in an `int`: the tick counter is that sum, and the events appended
      so far are sorted and start between 0 and the current tick count. */
  predicate TicksInvariant(st: TrackState) {
    st.total < 0x8000_0000 ==>
      st.ticks == st.total && Sorted(st.track.events) &&
      forall i | 0 <= i < |st.track.events| :: 0 <= st.track.events[i].startTicks <= st.ticks
  }

  /** An event body keeps the events read so far and appends at most one,
      which starts at the current tick count. */
  lemma DispatchAppends(data: Bytes, format: int16, itrack: nat, status: uint8, st: TrackState)
    ensures var r := Dispatch(data, format, itrack, status, st);
            r.Ok? ==> r.value.track.events == st.track.events ||
                      exists e: Event | e.startTicks == st.ticks :: r.value.track.events == st.track.events + [e]
  {
    if status != 0xFF && status != 0xF0 && status != 0xF7 && HighNibble(status) >= 0x8 {
      var r := ChannelEvent(data, status, st);
      if r.Ok? && HighNibble(status) == 0x9 {
        var e := Event(status % 0x10, data[st.pos], data[st.pos + 1], st.ticks);
        assert r.value.track.events == st.track.events + [e];
      }
    }
  }

  lemma StepKeepsTicksInvariant(data: Bytes, format: int16, itrack: nat, st: TrackState)
    requires TicksInvariant(st)
    ensures Step(data, format, itrack, st).Ok? ==> TicksInvariant(Step(data, format, itrack, st).value)
  {
    var r := Step(data, format, itrack, st);
    if r.Ok? && r.value.total < 0x8000_0000 {
      var delta := Vlq(data, st.pos).value;
      var b := ReadUint8(data, delta.next).value;
      var status := if b.value < 0x80 then st.status else b.value;
      var next := if b.value < 0x80 then b.next - 1 else b.next;
      var s := st.(pos := next, ticks := AddTicks(st.ticks, delta.value), total := st.total + delta.value, status := status);
      assert r == Dispatch(data, format, itrack, status, s);
      DispatchAppends(data, format, itrack, status, s);
      assert r.value.ticks == s.ticks == r.value.total;
      var old_ := st.track.events;
      var new_ := r.value.track.events;
      if new_ != old_ {
        var e: Event :| e.startTicks == s.ticks && new_ == old_ + [e];
        forall i | 0 <= i < |new_|
          ensures 0 <= new_[i].startTicks <= r.value.ticks
        {
          if i < |old_| {
            assert new_[i] == old_[i];
          }
        }
      }
    }
  }

  lemma {:induction false} RunTrackKeepsTicksInvariant(data: Bytes, format: int16, itrack: nat, end: nat, st: TrackState)
    requires TicksInvariant(st)
    ensures RunTrack(data, format, itrack, end, st).Ok? ==> TicksInvariant(RunTrack(data, format, itrack, end, st).value)
    decreases end - st.pos
  {
    if st.pos < end {
      StepKeepsTicksInvariant(data, format, itrack, st);
      var next := Step(data, format, itrack, st);
      if next.Ok? {
        RunTrackKeepsTicksInvariant(data, format, itrack, end, next.value);
      }
    }
  }

  /** The events of a decoded track are in stream order with non-decreasing
      start times, each the sum of the delta-times before it, provided the
      track's delta-times sum to less than 2^31 (beyond that the tick counter
      wraps). */
  lemma TrackEventsSorted(data: Bytes, midi: Midi, itrack: nat, pos: nat)
    requires ReadTrack(data, midi, itrack, pos).Ok?
    requires ReadTrack(data, midi, itrack, pos).value.total < 0x8000_0000
    ensures var st := ReadTrack(data, midi, itrack, pos).value;
            Sorted(st.track.events) &&
            forall i | 0 <= i < |st.track.events| :: 0 <= st.track.events[i].startTicks <= st.total
  {
    var chunklen := ReadUint32(data, pos + 4).value;
    var start := StartTrack(chunklen.next, midi.sequenceName);
    assert ReadTrack(data, midi, itrack, pos) == RunTrack(data, midi.format, itrack, chunklen.next + chunklen.value, start);
    RunTrackKeepsTicksInvariant(data, midi.format, itrack, chunklen.next + chunklen.value, start);
  }

  // ---------------------------------------------------------------------
  // The VLQ length guard

  lemma {:induction false} Wrap32Mod(x: nat)
    ensures Wrap32(x) == x % 0x1_0000_0000
    decreases x
  {
    if x >= 0x1_0000_0000 {
      Wrap32Mod(x - 0x1_0000_0000);
    }
  }

  /** The four-byte limit never applies: a five-byte quantity is read in
      full. */
  lemma FiveByteVlqAccepted()
    ensures Vlq([0x81, 0x80, 0x80, 0x80, 0x00], 0) == Ok(Read(0x1000_0000, 5))
  {
    var data: Bytes := [0x81, 0x80, 0x80, 0x80, 0x00];
    assert VlqFrom(data, 4, 0x20_0000) == Ok(Read(0x1000_0000, 5));
    assert VlqFrom(data, 2, 0x80) == VlqFrom(data, 3, 0x4000);
  }

  /** Beyond 32 bits the accumulator drops the high bits: six bytes
      encoding 2^35 + 1 read as 1. */
  lemma SixByteVlqWraps()
    ensures Vlq([0x81, 0x80, 0x80, 0x80, 0x80, 0x01], 0) == Ok(Read(1, 6))
  {
    var data: Bytes := [0x81, 0x80, 0x80, 0x80, 0x80, 0x01];
    Wrap32Mod(0x8_0000_0001);
    assert Shift7(0x1000_0000, 0x01) == 1;
    assert VlqFrom(data, 5, 0x1000_0000) == Ok(Read(1, 6));
    assert VlqFrom(data, 3, 0x4000) == VlqFrom(data, 4, 0x20_0000);
    assert VlqFrom(data, 1, 0x01) == VlqFrom(data, 2, 0x80);
  }

  // ---------------------------------------------------------------------
  // A whole track

  /** Two iterations that end at or past `end` are the whole event loop. */
  lemma RunTrackTwoSteps(data: Bytes, format: int16, itrack: nat, end: nat, st: TrackState, st1: TrackState, st2: TrackState)
    requires st.pos < end && Step(data, format, itrack, st) == Ok(st1)
    requires st1.pos < end && Step(data, format, itrack, st1) == Ok(st2)
    requires st2.pos >= end
    ensures RunTrack(data, format, itrack, end, st) == Ok(st2)
  {
    assert RunTrack(data, format, itrack, end, st1) == Ok(st2);
  }

  /** An event stream after `prefix`: a Note-On of `note` on channel 0 after
      delta-time `d1`, then a Note-Off with its own status byte after
      delta-time `d2`, whose two data bytes are the start of `rest`. */
  function NoteOnNoteOffBytes(prefix: Bytes, d1: uint32, note: uint8, velocity: uint8, d2: uint32, rest: Bytes): Bytes {
    prefix + EncodeVlq(d1) + [0x90, note, velocity] + (EncodeVlq(d2) + [0x80] + rest)
  }

  /** The cursor after the Note-On of NoteOnNoteOffBytes. */
  function AfterNoteOn(prefix: Bytes, d1: uint32): nat {
    |prefix| + |EncodeVlq(d1)| + 3
  }

  /** The loop state after the Note-On of NoteOnNoteOffBytes. */
  function NoteOnState(prefix: Bytes, d1: uint32, note: uint8, velocity: uint8, name: Bytes): TrackState {
    TrackState(AfterNoteOn(prefix, d1), AddTicks(0, d1), d1, 0x90,
               Track([], [Event(0, note, velocity, AddTicks(0, d1))]), name)
  }

  lemma NoteOnNoteOffFirst(prefix: Bytes, d1: uint32, note: uint8, velocity: uint8, d2: uint32, rest: Bytes,
                           format: int16, itrack: nat, name: Bytes)
    ensures Step(NoteOnNoteOffBytes(prefix, d1, note, velocity, d2, rest), format, itrack, StartTrack(|prefix|, name))
            == Ok(NoteOnState(prefix, d1, note, velocity, name))
  {
    var st := StartTrack(|prefix|, name);
    var s := Advanced(st, d1, AfterDelta(prefix, d1) + 3, 0x90 + 0);
    assert s.(track := st.track.(events := st.track.events + [Event(0, note, velocity, s.ticks)]))
           == NoteOnState(prefix, d1, note, velocity, name);
    NoteOnEvent(prefix, d1, 0, note, velocity, EncodeVlq(d2) + [0x80] + rest, format, itrack, st);
  }

  lemma NoteOnNoteOffSecond(prefix: Bytes, d1: uint32, note: uint8, velocity: uint8, d2: uint32, rest: Bytes,
                            format: int16, itrack: nat, name: Bytes)
    ensures var st1 := NoteOnState(prefix, d1, note, velocity, name);
            Step(NoteOnNoteOffBytes(prefix, d1, note, velocity, d2, rest), format, itrack, st1)
            == Ok(st1.(pos := st1.pos + |EncodeVlq(d2)| + 3, ticks := AddTicks(st1.ticks, d2),
                       total := d1 + d2, status := 0x80))
  {
    var st1 := NoteOnState(prefix, d1, note, velocity, name);
    var head := prefix + EncodeVlq(d1) + [0x90, note, velocity];
    assert NoteOnNoteOffBytes(prefix, d1, note, velocity, d2, rest) == head + EncodeVlq(d2) + [0x80] + rest;
    ChannelSkipEvent(head, d2, 0x80, rest, format, itrack, st1);
  }

  /** A track made of a Note-On and a Note-Off: one event, starting at the
      first delta-time; the loop ends exactly after the Note-Off's two data
      bytes, whatever follows them (even nothing), with the tick count at
      the sum of the two delta-times. */
  lemma NoteOnNoteOffTrack(prefix: Bytes, d1: uint32, note: uint8, velocity: uint8, d2: uint32, rest: Bytes,
                           format: int16, itrack: nat, name: Bytes)
    ensures var end := |prefix| + |EncodeVlq(d1)| + |EncodeVlq(d2)| + 6;
            RunTrack(NoteOnNoteOffBytes(prefix, d1, note, velocity, d2, rest), format, itrack, end,
                     StartTrack(|prefix|, name))
            == Ok(TrackState(end, AddTicks(AddTicks(0, d1), d2), d1 + d2, 0x80,
                             Track([], [Event(0, note, velocity, AddTicks(0, d1))]), name))
  {
    var data := NoteOnNoteOffBytes(prefix, d1, note, velocity, d2, rest);
    var end := |prefix| + |EncodeVlq(d1)| + |EncodeVlq(d2)| + 6;
    var st1 := NoteOnState(prefix, d1, note, velocity, name);
    var st2 := st1.(pos := st1.pos + |EncodeVlq(d2)| + 3, ticks := AddTicks(st1.ticks, d2),
                    total := d1 + d2, status := 0x80);
    assert st2 == TrackState(end, AddTicks(AddTicks(0, d1), d2), d1 + d2, 0x80,
                             Track([], [Event(0, note, velocity, AddTicks(0, d1))]), name);
    NoteOnNoteOffFirst(prefix, d1, note, velocity, d2, rest, format, itrack, name);
    NoteOnNoteOffSecond(prefix, d1, note, velocity, d2, rest, format, itrack, name);
    RunTrackTwoSteps(data, format, itrack, end, StartTrack(|prefix|, name), st1, st2);
  }
}
