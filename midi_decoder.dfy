/** LoadMidi of src/midi.cpp: the header, then one track chunk per declared
    track, each walked as a stream of delta-time-prefixed events with running
    status. The functions below define what one iteration, one track and the
    whole file decode to; the method LoadMidi runs the source's loops and is
    proved to compute exactly Decode. */
module MidiDecoder {
  import opened MidiTypes
  import opened MidiReader

  const HeaderId: Bytes := [0x4D, 0x54, 0x68, 0x64]  // "MThd"
  const TrackId: Bytes := [0x4D, 0x54, 0x72, 0x6B]   // "MTrk"

  /** The variables of the per-track loop: the cursor, the tick counter
      (`int`, updated by unsigned addition), the running status, the track
      under construction and the document's sequence name, which an
      iteration of track 0 may set. `total` is the exact sum of the
      delta-times read so far; the source does not keep it, it is the value
      `ticks` would have without wrap-around. */
  datatype TrackState = TrackState(
    pos: nat,
    ticks: int32,
    total: nat,
    status: uint8,
    track: Track,
    sequenceName: Bytes)

  /** The state at the start of a track's event stream. */
  function StartTrack(pos: nat, sequenceName: Bytes): TrackState {
    TrackState(pos, 0, 0, 0, EmptyTrack, sequenceName)
  }

  /** The running status is 0 until a status byte is seen, and a status byte
      is always at least 0x80. */
  predicate StatusInvariant(status: uint8) {
    status == 0 || status >= 0x80
  }

  function HighNibble(status: uint8): nat {
    status / 0x10
  }

  /** The event body, once the delta-time and the status are known.
      `st.pos` is the cursor after the status byte (or before the first data
      byte under running status). Status 0 (no status seen yet) matches no
      branch. */
  function Dispatch(data: Bytes, format: int16, itrack: nat, status: uint8, st: TrackState): (r: Result<TrackState>)
    ensures r.Err? ==> r.error == NotEnoughData
    ensures r.Ok? ==> r.value.pos >= st.pos
    ensures r.Ok? ==> r.value.ticks == st.ticks && r.value.total == st.total && r.value.status == st.status
    ensures r.Ok? && (format >= 2 || itrack != 0) ==> r.value.sequenceName == st.sequenceName
  {
    if status == 0xFF then MetaEvent(data, format, itrack, st)
    else if status == 0xF0 then var next :- SysExEvent(data, st.pos); Ok(st.(pos := next))
    else if status == 0xF7 then var next :- SysExEvent(data, st.pos); Ok(st.(pos := next))
    else if HighNibble(status) >= 0x8 then ChannelEvent(data, status, st)
    else Ok(st)
  }

  /** A meta event: its type byte, a VLQ length, then either the
      Sequence/Track Name (type 0x03), read with a bounds check, or an
      unchecked skip of the payload. */
  function MetaEvent(data: Bytes, format: int16, itrack: nat, st: TrackState): (r: Result<TrackState>)
    ensures r.Err? ==> r.error == NotEnoughData
    ensures r.Ok? ==> r.value.pos >= st.pos + 2
    ensures r.Ok? ==> r.value.ticks == st.ticks && r.value.total == st.total && r.value.status == st.status
    ensures r.Ok? ==> r.value.track.events == st.track.events
    ensures r.Ok? && (format >= 2 || itrack != 0) ==> r.value.sequenceName == st.sequenceName
  {
    var msg :- ReadUint8(data, st.pos);
    var length :- Vlq(data, msg.next);
    if msg.value == 0x03 then
      var name :- ReadString(data, length.next, length.value);
      if format < 2 && itrack == 0 then Ok(st.(pos := name.next, sequenceName := name.value))
      else Ok(st.(pos := name.next, track := st.track.(name := name.value)))
    else
      Ok(st.(pos := length.next + length.value))
  }

  /** A SysEx event (0xF0 or 0xF7): a VLQ length, then an unchecked skip
      of that many bytes. The result is the cursor after the skip. */
  function SysExEvent(data: Bytes, pos: nat): (r: Result<nat>)
    ensures r.Err? ==> r.error == NotEnoughData
    ensures r.Ok? ==> r.value > pos
  {
    var length :- Vlq(data, pos);
    Ok(length.next + length.value)
  }

  /** A channel event (and, as written, any status from 0xF1 to 0xFE other
      than 0xF7): Note-On appends an event at the current tick count; every
      other kind skips one data byte (0xC_, 0xD_) or two, unchecked. */
  function ChannelEvent(data: Bytes, status: uint8, st: TrackState): (r: Result<TrackState>)
    ensures r.Err? ==> r.error == NotEnoughData
    ensures r.Ok? ==> r.value.pos > st.pos && r.value.sequenceName == st.sequenceName
    ensures r.Ok? ==> r.value.ticks == st.ticks && r.value.total == st.total && r.value.status == st.status
    ensures r.Ok? ==> r.value.track.name == st.track.name
  {
    var message := HighNibble(status);
    var length := if 0xC <= message < 0xE then 1 else 2;
    if message == 0x9 then
      var note :- ReadUint8(data, st.pos);
      var velocity :- ReadUint8(data, note.next);
      var event := Event(status % 0x10, note.value, velocity.value, st.ticks);
      Ok(st.(pos := velocity.next, track := st.track.(events := st.track.events + [event])))
    else
      Ok(st.(pos := st.pos + length))
  }

  /** One iteration of the per-track loop. It always moves the cursor
      forward and keeps the running-status invariant. */
  function Step(data: Bytes, format: int16, itrack: nat, st: TrackState): (r: Result<TrackState>)
    ensures r.Err? ==> r.error == NotEnoughData
    ensures r.Ok? ==> r.value.pos > st.pos
    ensures r.Ok? ==> st.total <= r.value.total < st.total + 0x1_0000_0000
    ensures r.Ok? ==> r.value.ticks == AddTicks(st.ticks, r.value.total - st.total)
    ensures r.Ok? && StatusInvariant(st.status) ==> StatusInvariant(r.value.status)
    ensures r.Ok? && (format >= 2 || itrack != 0) ==> r.value.sequenceName == st.sequenceName
  {
    var delta :- Vlq(data, st.pos);
    var ticks := AddTicks(st.ticks, delta.value);
    var b :- ReadUint8(data, delta.next);
    var running := b.value < 0x80;
    var status := if running then st.status else b.value;
    var next := if running then b.next - 1 else b.next;
    Dispatch(data, format, itrack, status,
             st.(pos := next, ticks := ticks, total := st.total + delta.value, status := status))
  }

  /** The per-track loop: iterate while the cursor is before `end`. */
  function RunTrack(data: Bytes, format: int16, itrack: nat, end: nat, st: TrackState): (r: Result<TrackState>)
    ensures r.Err? ==> r.error == NotEnoughData
    ensures r.Ok? ==> r.value.pos >= end && r.value.pos >= st.pos
    ensures r.Ok? ==> r.value.total >= st.total
    ensures r.Ok? && (format >= 2 || itrack != 0) ==> r.value.sequenceName == st.sequenceName
    decreases end - st.pos
  {
    if st.pos >= end then Ok(st)
    else
      var st' :- Step(data, format, itrack, st);
      RunTrack(data, format, itrack, end, st')
  }

  /** One track chunk at `pos`: its identifier (never validated), its length,
      and the event stream it delimits. */
  function ReadTrack(data: Bytes, midi: Midi, itrack: nat, pos: nat): (r: Result<TrackState>)
    ensures r.Err? ==> r.error == NotEnoughData
    ensures r.Ok? ==> r.value.pos >= pos + 8
    ensures r.Ok? && (midi.format >= 2 || itrack != 0) ==> r.value.sequenceName == midi.sequenceName
  {
    var identifier :- ReadString(data, pos, 4);
    if ExpectEqual(TrackId, identifier.value).Fail? then Err(UnexpectedIdentifier) else
    var chunklen :- ReadUint32(data, identifier.next);
    RunTrack(data, midi.format, itrack, chunklen.next + chunklen.value,
             StartTrack(chunklen.next, midi.sequenceName))
  }

  /** The track loop `for (itrack = 0; itrack < ntracks; itrack++)`: one
      track appended per iteration, from `itrack` on. */
  function ReadTracks(data: Bytes, midi: Midi, itrack: nat, pos: nat): (r: Result<Midi>)
    ensures r.Err? ==> r.error == NotEnoughData
    ensures r.Ok? ==> |r.value.tracks| == |midi.tracks| + (if itrack < midi.ntracks then midi.ntracks - itrack else 0)
    ensures r.Ok? ==> r.value.tracks[..|midi.tracks|] == midi.tracks
    ensures r.Ok? ==> r.value.(tracks := [], sequenceName := []) == midi.(tracks := [], sequenceName := [])
    ensures r.Ok? && (midi.format >= 2 || itrack > 0) ==> r.value.sequenceName == midi.sequenceName
    decreases midi.ntracks - itrack
  {
    if itrack >= midi.ntracks then Ok(midi)
    else
      var st :- ReadTrack(data, midi, itrack, pos);
      ReadTracks(data, midi.(tracks := midi.tracks + [st.track], sequenceName := st.sequenceName), itrack + 1, st.pos)
  }

  /** The whole file: the header chunk, whose identifier is never validated
      and whose declared length is read and ignored, then the tracks. */
  function Decode(data: Bytes): (r: Result<Midi>)
    ensures r.Err? ==> r.error == NotEnoughData
    ensures r.Ok? ==> |r.value.tracks| == if r.value.ntracks < 0 then 0 else r.value.ntracks
    ensures r.Ok? ==> r.value.ticklen == None
    ensures r.Ok? && r.value.format >= 2 ==> r.value.sequenceName == []
  {
    var identifier :- ReadString(data, 0, 4);
    if ExpectEqual(HeaderId, identifier.value).Fail? then Err(UnexpectedIdentifier) else
    var chunklen :- ReadUint32(data, identifier.next);
    var format :- ReadUint16(data, chunklen.next);
    var ntracks :- ReadUint16(data, format.next);
    var tickdiv :- ReadUint16(data, ntracks.next);
    var midi := Midi(ToInt16(format.value), ToInt16(ntracks.value), ToInt16(tickdiv.value), None, [], []);
    ReadTracks(data, midi, 0, tickdiv.next)
  }

  /** One iteration of the event loop of LoadMidi, on the loop's variables:
      read the delta-time and add it to the tick counter, read the status byte
      (un-reading it under running status), then the event body. */
  method ReadEvent(data: Bytes, format: int16, itrack: nat, st: TrackState) returns (r: Result<TrackState>)
    ensures r == Step(data, format, itrack, st)
  {
    var pos := st.pos;
    var deltaTime :- ReadVariableLengthQuantity(data, pos);
    pos := deltaTime.next;
    var ticks := AddTicks(st.ticks, deltaTime.value);
    var b :- ReadUint8(data, pos);
    pos := b.next;
    var status := b.value;
    var currentStatus := st.status;
    if status < 0x80 {
      // Running status: reuse the previous status and unread the byte
      status := currentStatus;
      pos := pos - 1;
    } else {
      currentStatus := status;
    }
    r := ReadEventBody(data, format, itrack, status,
                       st.(pos := pos, ticks := ticks, total := st.total + deltaTime.value, status := currentStatus));
  }

  /** The branches on the status byte: meta, the two SysEx forms, channel
      events, and nothing at all for a status below 0x80. */
  method ReadEventBody(data: Bytes, format: int16, itrack: nat, status: uint8, st: TrackState) returns (r: Result<TrackState>)
    ensures r == Dispatch(data, format, itrack, status, st)
  {
    if status == 0xFF {
      r := ReadMetaEvent(data, format, itrack, st);
    } else if status == 0xF0 {
      var next :- SkipSysEx(data, st.pos);
      r := Ok(st.(pos := next));
    } else if status == 0xF7 {
      var next :- SkipSysEx(data, st.pos);
      r := Ok(st.(pos := next));
    } else if HighNibble(status) >= 0x8 {
      r := ReadChannelEvent(data, status, st);
    } else {
      r := Ok(st);
    }
  }

  method ReadMetaEvent(data: Bytes, format: int16, itrack: nat, st: TrackState) returns (r: Result<TrackState>)
    ensures r == MetaEvent(data, format, itrack, st)
  {
    var pos := st.pos;
    var msg :- ReadUint8(data, pos);
    pos := msg.next;
    var length :- ReadVariableLengthQuantity(data, pos);
    pos := length.next;
    if msg.value == 0x03 {
      // Sequence/Track name
      var name :- ReadString(data, pos, length.value);
      pos := name.next;
      if format < 2 && itrack == 0 {
        return Ok(st.(pos := pos, sequenceName := name.value));
      } else {
        return Ok(st.(pos := pos, track := st.track.(name := name.value)));
      }
    } else {
      // Skip data
      pos := pos + length.value;
      return Ok(st.(pos := pos));
    }
  }

  method SkipSysEx(data: Bytes, pos: nat) returns (r: Result<nat>)
    ensures r == SysExEvent(data, pos)
  {
    var length :- ReadVariableLengthQuantity(data, pos);
    var next := length.next;
    next := next + length.value;
    return Ok(next);
  }

  method ReadChannelEvent(data: Bytes, status: uint8, st: TrackState) returns (r: Result<TrackState>)
    ensures r == ChannelEvent(data, status, st)
  {
    var pos := st.pos;
    var channel := status % 0x10;
    var message := HighNibble(status);
    var length := if 0xC <= message < 0xE then 1 else 2;
    if message == 0x9 {
      // Note On
      var note :- ReadUint8(data, pos);
      pos := note.next;
      var velocity :- ReadUint8(data, pos);
      pos := velocity.next;
      var event := Event(channel, note.value, velocity.value, st.ticks);
      return Ok(st.(pos := pos, track := st.track.(events := st.track.events + [event])));
    } else {
      pos := pos + length;
      return Ok(st.(pos := pos));
    }
  }

  /** One iteration of the track loop of LoadMidi: the chunk header, a fresh
      track, and the event loop `while (pos < start_pos + chunklen)`. */
  method ReadTrackChunk(data: Bytes, midi: Midi, itrack: nat, pos: nat) returns (r: Result<TrackState>)
    ensures r == ReadTrack(data, midi, itrack, pos)
  {
    var identifier :- ReadString(data, pos, 4);
    if ExpectEqual(TrackId, identifier.value).Fail? {
      return Err(UnexpectedIdentifier);
    }
    var chunklen :- ReadUint32(data, identifier.next);
    var startPos := chunklen.next;
    var end := startPos + chunklen.value;
    var st := StartTrack(startPos, midi.sequenceName);
    while st.pos < end
      invariant RunTrack(data, midi.format, itrack, end, st) == ReadTrack(data, midi, itrack, pos)
      decreases end - st.pos
    {
      st :- ReadEvent(data, midi.format, itrack, st);
    }
    return Ok(st);
  }

  /** LoadMidi: the header fields, then `for (itrack = 0; itrack < ntracks;
      itrack++)` appending one track per iteration. Any failed read aborts
      the whole decode, so no partial document is ever returned. */
  method LoadMidi(data: Bytes) returns (r: Result<Midi>)
    ensures r == Decode(data)
  {
    var pos: nat := 0;
    var identifier :- ReadString(data, pos, 4);
    pos := identifier.next;
    if ExpectEqual(HeaderId, identifier.value).Fail? {
      return Err(UnexpectedIdentifier);
    }
    var chunklen :- ReadUint32(data, pos);
    pos := chunklen.next;
    var format :- ReadUint16(data, pos);
    pos := format.next;
    var ntracks :- ReadUint16(data, pos);
    pos := ntracks.next;
    var tickdiv :- ReadUint16(data, pos);
    pos := tickdiv.next;
    var midi := Midi(ToInt16(format.value), ToInt16(ntracks.value), ToInt16(tickdiv.value), None, [], []);

    var itrack: nat := 0;
    while itrack < midi.ntracks
      invariant midi.ntracks == ToInt16(ntracks.value)
      invariant ReadTracks(data, midi, itrack, pos) == Decode(data)
      decreases midi.ntracks - itrack
    {
      var st :- ReadTrackChunk(data, midi, itrack, pos);
      midi := midi.(tracks := midi.tracks + [st.track], sequenceName := st.sequenceName);
      pos := st.pos;
      itrack := itrack + 1;
    }
    return Ok(midi);
  }
}
