/**
 * The part of mido's data model that the transforms touch. A message is a
 * value; a track is an array of messages that the transforms overwrite slot
 * by slot; a file owns a list of tracks.
 */
module Midi {
  /** A MIDI data byte: mido keeps every note number and velocity in 0..127. */
  type DataByte = x: int | 0 <= x <= 127

  type Channel = x: int | 0 <= x <= 15

  /** The type of a message that is neither a note_on nor a note_off. */
  type OtherKind = k: string | k != "note_on" && k != "note_off" witness ""

  /** A decoded message; `time` is the delta time in ticks. */
  datatype Message =
    | NoteOn(channel: Channel, note: DataByte, velocity: DataByte, time: nat)
    | NoteOff(channel: Channel, note: DataByte, velocity: DataByte, time: nat)
    | Other(kind: OtherKind, time: nat)

  /** The messages whose type is "note_on" or "note_off". */
  predicate IsNote(m: Message) {
    m.NoteOn? || m.NoteOff?
  }

  predicate HasNote(t: seq<Message>) {
    exists i :: 0 <= i < |t| && IsNote(t[i])
  }

  /** b is a with at most its velocity changed. */
  predicate SameButVelocity(a: Message, b: Message) {
    match a
    case NoteOn(c, n, _, d) => b.NoteOn? && b.channel == c && b.note == n && b.time == d
    case NoteOff(c, n, _, d) => b.NoteOff? && b.channel == c && b.note == n && b.time == d
    case Other(_, _) => b == a
  }

  /** b is a with at most its note number changed. */
  predicate SameButNote(a: Message, b: Message) {
    match a
    case NoteOn(c, _, v, d) => b.NoteOn? && b.channel == c && b.velocity == v && b.time == d
    case NoteOff(c, _, v, d) => b.NoteOff? && b.channel == c && b.velocity == v && b.time == d
    case Other(_, _) => b == a
  }

  /** A decoded MIDI file (mido.MidiFile). */
  class MidiFile {
    const tracks: seq<array<Message>>

    /** Each track is its own list: no two entries share an array. */
    predicate Valid() {
      forall i, j :: 0 <= i < j < |tracks| ==> tracks[i] != tracks[j]
    }

    constructor (tracks: seq<array<Message>>)
      requires forall i, j :: 0 <= i < j < |tracks| ==> tracks[i] != tracks[j]
      ensures this.tracks == tracks && Valid()
    {
      this.tracks := tracks;
    }
  }
}
