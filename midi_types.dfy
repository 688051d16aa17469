/** The decoded document of a Standard MIDI File, as declared in src/midi.h:
    fixed-width integers as subset types of int, the Event, Track and Midi
    structs as datatypes, and the note-range constants. */
module MidiTypes {

  type uint8 = x: int | 0 <= x < 0x100
  type uint16 = x: int | 0 <= x < 0x1_0000
  type uint32 = x: int | 0 <= x < 0x1_0000_0000
  type int16 = x: int | -0x8000 <= x < 0x8000
  type int32 = x: int | -0x8000_0000 <= x < 0x8000_0000

  /** A byte string: the input buffer, a chunk identifier or a name. */
  type Bytes = seq<uint8>

  /** Declared note range; the decoder never checks a note against it. */
  const NoteMin: uint8 := 0
  const NoteMax: uint8 := 127
  const NoteDefault: uint8 := 64

  datatype Option<T> = None | Some(value: T)

  /** One decoded Note-On message. */
  datatype Event = Event(channel: uint8, note: uint8, velocity: uint8, startTicks: int32)

  /** A track: its name and its Note-On events in stream order. */
  datatype Track = Track(name: Bytes, events: seq<Event>)

  /** A value-initialised track, as emplace_back creates it. */
  const EmptyTrack := Track([], [])

  /** The document. `ticklen` is declared but never assigned by the decoder:
      None stands for that unassigned field. */
  datatype Midi = Midi(
    format: int16,
    ntracks: int16,
    tickdiv: int16,
    ticklen: Option<int32>,
    sequenceName: Bytes,
    tracks: seq<Track>)

  /** Storing a 16-bit unsigned header field into an int16_t member: values
      of 0x8000 and above become negative (two's complement). */
  function ToInt16(u: uint16): (r: int16)
    ensures r == u || r == u - 0x1_0000
    ensures r < 0 <==> u >= 0x8000
  {
    if u >= 0x8000 then u - 0x1_0000 else u
  }

  /** `ticks += delta_time` with `int ticks` and `uint32_t delta_time`: the
      addition is done in unsigned 32-bit arithmetic and converted back to
      `int` (modular, as C++20 defines it). Since the exact sum lies in
      [-2^31, 2^31 + 2^32), one subtraction of 2^32 is all the wrap there is. */
  function AddTicks(ticks: int32, delta: uint32): (r: int32)
    ensures r == ticks + delta || r == ticks + delta - 0x1_0000_0000
    ensures ticks + delta < 0x8000_0000 ==> r == ticks + delta
  {
    if ticks + delta >= 0x8000_0000 then ticks + delta - 0x1_0000_0000 else ticks + delta
  }
}
