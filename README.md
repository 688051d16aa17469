# MIDI track decoder and bullet pool, modelled in Dafny

This project models two parts of a small rhythm game.

The first is its Standard MIDI File decoder, `LoadMidi` in `src/midi.cpp`, with the data model of `src/midi.h`. It takes a byte buffer and returns a document or fails. The document has the header fields `format`, `ntracks` and `tickdiv`, the sequence name, and one track per declared track. Each track has its name and its Note-On events: channel, note, velocity and start time in ticks.

The decoder reads:
- the header chunk;
- then, for each declared track, a track chunk;
- inside each chunk, events, each after a variable-length delta-time, with running status.

The model follows the code as written, including its dead and missing guards:
- the chunk identifiers are never checked, because `EXPECTS_EQUAL` compares `expected` with itself;
- the four-byte limit on a variable-length quantity never fires, because the counter it tests is never incremented;
- the header's declared length is read and ignored;
- meta, SysEx and channel-event skips move the cursor by the declared length with no bounds check.

The second part is `CreateBullet` in `src/main.cpp`. It claims the first dead slot of a fixed-size bullet pool.

Files:
- `midi_types.dfy` (module `MidiTypes`): the structs of `midi.h` as datatypes, fixed-width integers as subset types of `int`, the `MIDI_NOTE_*` constants (0, 127, 64), the `int16_t` store of a 16-bit header field and the `int ticks += uint32_t` update.
- `midi_reader.dfy` (module `MidiReader`):
  - the two macros and the primitive readers, as functions that return the value and the cursor after it, or an error;
  - `ReadVariableLengthQuantity`, as a function and as the source's do-while loop;
  - the canonical encoders used to state the round trips.
- `midi_decoder.dfy` (module `MidiDecoder`):
  - `Decode`, `ReadTracks`, `ReadTrack`, `RunTrack`, `Step` and `Dispatch` define what the file, the track loop, one track chunk, the event loop, one iteration and one event body decode to;
  - the method `LoadMidi` and its helper methods run the source's loops over the same state and are proved to compute exactly those functions.
- `midi_properties.dfy` (module `MidiProperties`): lemmas about the decoder. They cover the header layout, running status, each event kind, the unchecked skips, the order of start times, the unlimited VLQ length and a whole two-event track.
- `bullets.dfy` (module `Bullets`): the entity pool, `CreateBullet` as a loop over an array, the function `Spawned` that specifies it, and lemmas about `Spawned`.

Errors become a `Result` datatype in place of `std::runtime_error`. `NotEnoughData` is the only error any input can produce. `UnexpectedIdentifier` and `VlqTooLong` stand for the two throw sites whose guards never fire.

## Model

| member | source | states |
|---|---|---|
| MidiTypes.ToInt16 | src/midi.cpp:70-72 | a 16-bit header value is stored in an `int16_t`: it is unchanged below 0x8000 and is that value minus 2^16 otherwise, which is exactly when it becomes negative |
| MidiTypes.AddTicks | src/midi.cpp:84 | `ticks += delta_time` is the exact sum or the sum minus 2^32, and is the exact sum whenever that is below 2^31 |
| MidiReader.ExpectEqual | src/midi.cpp:13-16 | the identifier check passes whatever the actual bytes are |
| MidiReader.ReadString | src/midi.cpp:18-23 | succeeds iff `pos + n <= size`; then yields exactly the `n` bytes at `pos` and advances the cursor by `n`; otherwise fails with not-enough-data |
| MidiReader.ReadUint8 | src/midi.cpp:42-47 | succeeds iff `pos < size`; yields `data[pos]` and advances by 1 |
| MidiReader.ReadUint16 | src/midi.cpp:35-40 | succeeds iff two bytes remain; the two bytes at `pos` are the big-endian encoding of the result; advances by 2 |
| MidiReader.ReadUint32 | src/midi.cpp:25-33 | succeeds iff four bytes remain; the four bytes at `pos` are the big-endian encoding of the result; advances by 4 |
| MidiReader.ReadUint16Encode | src/midi.cpp:35-40 | round trip: a big-endian 16-bit value anywhere in a buffer reads back as itself |
| MidiReader.ReadUint32Encode | src/midi.cpp:25-33 | round trip: a big-endian 32-bit value anywhere in a buffer reads back as itself |
| MidiReader.VlqFrom | src/midi.cpp:49-61 | a VLQ read fails only with not-enough-data; on success it consumed at least one byte and its last byte is below 0x80 |
| MidiReader.VlqFromShape | src/midi.cpp:53-59 | a VLQ read fails iff no byte below 0x80 follows `pos`; on success every byte before the last has bit 7 set |
| MidiReader.ReadVariableLengthQuantity | src/midi.cpp:49-61 | the do-while loop, with its never-incremented `nread` guard, computes the uint32 fold of "shift left by 7, add the low 7 bits" over the bytes up to the first one below 0x80 |
| MidiReader.VlqFromSkip | src/midi.cpp:53-59 | reading across a run of continuation bytes is folding that run into the accumulator |
| MidiReader.FoldContinuation | src/midi.cpp:55 | folding the continuation bytes of a value below 2^25 gives back that value |
| MidiReader.EncodeVlqLength | src/midi.cpp:56-58 | every value below 2^28 has a canonical encoding of at most four bytes |
| MidiReader.VlqRoundTrip | src/midi.cpp:49-61 | the canonical encoding of any uint32 value, followed by anything, reads back as that value and consumes exactly the encoding |
| MidiDecoder.Dispatch | src/midi.cpp:92-132 | an event body leaves the tick count, the exact delta sum and the running status unchanged; it never moves the cursor back; it changes the sequence name only in track 0 of a format 0 or 1 file; its only error is not-enough-data |
| MidiDecoder.MetaEvent | src/midi.cpp:92-107 | a meta event consumes at least its type byte and one length byte, appends no event, and sets the sequence name only in track 0 of a format 0 or 1 file |
| MidiDecoder.SysExEvent | src/midi.cpp:108-115 | a SysEx event moves the cursor forward |
| MidiDecoder.ChannelEvent | src/midi.cpp:116-131 | a channel event moves the cursor forward and leaves the ticks, the status, the track name and the sequence name unchanged |
| MidiDecoder.Step | src/midi.cpp:83-132 | an iteration moves the cursor forward by at least one byte; it adds one uint32 delta-time to the exact sum and the matching wrapped amount to `ticks`; it keeps "status is 0 or at least 0x80" |
| MidiDecoder.RunTrack | src/midi.cpp:82-133 | the event loop ends with the cursor at or past the chunk end and never earlier than where it started |
| MidiDecoder.ReadTrack | src/midi.cpp:75-133 | a track chunk consumes at least its 8-byte chunk header, and keeps the sequence name outside track 0 of a format 0 or 1 file |
| MidiDecoder.ReadTracks | src/midi.cpp:74-134 | exactly one track is appended per `itrack < ntracks` (none when `ntracks` is negative); the earlier tracks and the header fields are kept |
| MidiDecoder.Decode | src/midi.cpp:63-136 | a decoded document has `max(ntracks, 0)` tracks and no `ticklen`, and a format-2-or-higher document has an empty sequence name; the only error is not-enough-data |
| MidiDecoder.ReadEvent | src/midi.cpp:83-91 | the iteration body (delta-time, status byte, running-status un-read) computes `Step` |
| MidiDecoder.ReadEventBody | src/midi.cpp:92-132 | the status branches compute `Dispatch` |
| MidiDecoder.ReadMetaEvent | src/midi.cpp:92-107 | the meta branch computes `MetaEvent` |
| MidiDecoder.SkipSysEx | src/midi.cpp:108-115 | the SysEx branches compute `SysExEvent` |
| MidiDecoder.ReadChannelEvent | src/midi.cpp:116-131 | the channel branch computes `ChannelEvent` |
| MidiDecoder.ReadTrackChunk | src/midi.cpp:75-133 | the chunk header plus the `while (pos < start_pos + chunklen)` loop compute `ReadTrack` |
| MidiDecoder.LoadMidi | src/midi.cpp:63-136 | the header reads plus the `for (itrack …)` loop compute `Decode` |
| MidiProperties.DecodeHeader | src/midi.cpp:67-72 | any four identifier bytes and any declared length are accepted; format, ntracks and tickdiv are the next three big-endian values stored as `int16_t`; the tracks start at byte 14 |
| MidiProperties.TruncatedAfterHeader | src/midi.cpp:74-77 | a buffer that ends after the header but declares a track fails, instead of returning a partial document |
| MidiProperties.TrackChunkLayout | src/midi.cpp:75-82 | a track chunk accepts any identifier, starts with a fresh track, zero ticks and status 0 after its 8-byte header, and loops until `start + chunklen` |
| MidiProperties.StepRunning | src/midi.cpp:85-88 | after the delta-time, a data byte is un-read and the previous status applies |
| MidiProperties.StepExplicit | src/midi.cpp:85-91 | after the delta-time, a byte of 0x80 or above is consumed and becomes the status |
| MidiProperties.RunningStatus | src/midi.cpp:86-88 | an event whose first byte is below 0x80 is read with the previous status, from that byte |
| MidiProperties.ExplicitStatus | src/midi.cpp:89-91 | any status byte, 0xFF, 0xF0 and 0xF7 included, is consumed and becomes the running status |
| MidiProperties.NoStatusYet | src/midi.cpp:80-91 | with no status seen yet, a data byte matches no branch and the iteration consumes only the delta-time |
| MidiProperties.NoteOn | src/midi.cpp:116-128 | a Note-On appends exactly one event: channel `status & 0x0F`, the note and velocity bytes as read (velocity 0 and notes above 127 included), and the current ticks |
| MidiProperties.NoteOnTruncated | src/midi.cpp:121-122 | a Note-On with fewer than two data bytes left fails |
| MidiProperties.ChannelSkip | src/midi.cpp:116-131 | every other status of 0x80 or above except 0xFF, 0xF0 and 0xF7, including 0xF1 to 0xFE, skips 1 byte for 0xC_/0xD_ and 2 otherwise, unchecked |
| MidiProperties.SysExSkip | src/midi.cpp:108-115 | 0xF0 and 0xF7 skip their declared length after the length, whether or not those bytes exist |
| MidiProperties.MetaSkip | src/midi.cpp:104-106 | a meta event of any type but 0x03 skips its declared length, unchecked |
| MidiProperties.MetaName | src/midi.cpp:95-103 | a type-0x03 meta event stores its payload as the sequence name in track 0 of a format 0 or 1 file, and as the track name otherwise, replacing any earlier name |
| MidiProperties.MetaNameTruncated | src/midi.cpp:96 | a name whose declared length runs past the end of the buffer fails |
| MidiProperties.NoteOnEvent | src/midi.cpp:83-128 | a whole Note-On event with its own status byte adds the delta-time to ticks, sets the running status and appends its event at the new tick count |
| MidiProperties.NoteOnAt | src/midi.cpp:83-128 | once its delta-time is read, a Note-On status byte and its two data bytes append one event carrying those bytes, at the tick count after the delta-time, and the cursor moves past all three |
| MidiProperties.ChannelSkipEvent | src/midi.cpp:83-131 | a whole non-Note-On channel event adds the delta-time, sets the running status and skips its data bytes |
| MidiProperties.SkipPastEnd | src/midi.cpp:129-130 | a channel event whose status byte is the last byte of the buffer succeeds with the cursor past the end of the buffer |
| MidiProperties.DispatchAppends | src/midi.cpp:123-127 | an event body keeps the events read so far and appends at most one, stamped with the current ticks |
| MidiProperties.StepKeepsTicksInvariant | src/midi.cpp:79-132 | while the delta sum stays below 2^31, an iteration keeps "ticks equals the delta sum, and the start times are sorted and lie between 0 and ticks" |
| MidiProperties.RunTrackKeepsTicksInvariant | src/midi.cpp:82-133 | the event loop keeps that invariant |
| MidiProperties.TrackEventsSorted | src/midi.cpp:79-133 | in a decoded track whose delta sum stays below 2^31, start times are non-decreasing in stream order and lie between 0 and that sum |
| MidiProperties.Wrap32Mod | src/midi.cpp:55 | the uint32 accumulator is the exact value modulo 2^32 |
| MidiProperties.FiveByteVlqAccepted | src/midi.cpp:52-58 | a five-byte quantity is read in full: the "max 4 bytes" error never arises |
| MidiProperties.SixByteVlqWraps | src/midi.cpp:55 | beyond 32 bits the accumulator drops the high bits |
| MidiProperties.NoteOnNoteOffTrack | src/midi.cpp:79-133 | a chunk holding a Note-On then a Note-Off decodes to one event at the first delta-time; the loop ends right after the Note-Off with ticks at the sum of both delta-times |
| Bullets.FirstDead | src/main.cpp:858-861 | finds nothing iff every slot is alive; otherwise the slot it finds is dead and every earlier one is alive |
| Bullets.Spawned | src/main.cpp:856-867 | the pool keeps its length |
| Bullets.CreateBullet | src/main.cpp:856-867 | the in-place loop with `break` leaves the array equal to `Spawned` of its old contents |
| Bullets.SpawnedClaimsFirstDead | src/main.cpp:858-865 | the lowest dead slot becomes alive with exactly the given `pos` and `velocity`; its other fields are kept; every other slot is unchanged |
| Bullets.SpawnedFull | src/main.cpp:858-866 | with every slot alive the bullet is dropped and the pool is unchanged |
| Bullets.SpawnedKeepsAlive | src/main.cpp:858-865 | no live slot is touched |
| Bullets.SpawnedAliveCount | src/main.cpp:856-867 | the live count rises by exactly one iff a dead slot existed, and is unchanged otherwise |

## Left out

- The game loop, the level-file loading, the mapping from notes to enemies, and the input and draw helpers of `src/main.cpp`. They depend on the window, audio, input and the file system, and on floating-point arithmetic.
- `src/camera_test.cpp` is not part of this model. It is a superseded prototype; its `CreateBullet` is the same as the one modelled.
- Exception messages and `std::format`: an error is one constructor with no text.
- The sizes of `size_t` and `std::string` are unbounded here. A cursor or a skip target that would wrap a 64-bit `size_t` is treated as a plain larger number.
- `MidiReader.ReadString` takes a `uint32` length. The source passes the VLQ's `uint32_t` into an `int` parameter, so a length of 2^31 or more is negative there. The bounds test then compares it as a huge unsigned value and fails. The model fails the same read only when the buffer is shorter than the cursor plus that length. The two agree for every buffer below 2^31 bytes; larger buffers are not considered.
- `MidiTypes.AddTicks`: the C++ `int += uint32_t` is modelled with the modular conversion to `int` that C++20 defines. An earlier standard leaves an out-of-range conversion implementation-defined.
- `ticklen` is never assigned by the decoder; the model gives it no value (`None`).
- The track is appended when its chunk has been read, instead of at the start of the chunk through a reference. The result is the same, because any error discards the whole document.
- "On failure the cursor is unchanged" has no counterpart: the readers return a new cursor only on success, so the old cursor is the caller's.
- The header's declared length is read and then ignored, as the code does. Reading the header by its declared length is not what the code does, so the model does not do it.
- Vectors in `Bullets` (`pos`, `velocity`) are pairs of `real`, and `last_hit_time` is a `real`. The pool only copies them, so floating-point rounding plays no part.
- `Bullets.CreateBullet`: the source indexes with a signed `int` compared against `size()`. A pool larger than 2^31 slots is not considered.
- No lemma decodes a whole concrete file. The header lemma, the track-chunk lemma and the two-event track lemma together cover that layout.
