# midilint pitch and velocity transforms, in Dafny

This project models the in-place message rewriting of midilint:

- `normalize` (in `midilint/midilint.py` and, as a separate copy, in `src/normidi.py`) sets the velocity of every `note_on`/`note_off` message of every track.
- `shift_up`, `shift_down` and `shift_nearest` move each note's pitch into a list of allowed MIDI pitches (`notes`).
- `correct_pitch` builds `notes` from the per-pitch-class lists of a key and applies one strategy to every track.
- normidi's command line refuses an existing destination and a velocity outside 0..127 before it touches a file.

Modules:

- `Errors`: `Option`, the Python exceptions raised (`ValueError`, `FileExistsError`), and `Result`/`Outcome`.
- `Midi`: mido's message and file model. A message is a value (`NoteOn`, `NoteOff` or `Other`, whose type is any name but "note_on" and "note_off"). Note numbers and velocities are data bytes in 0..127, as mido keeps them. A track is an `array<Message>` overwritten slot by slot. A `MidiFile` owns its tracks, and `Valid()` says no two tracks share an array.
- `Normalization`: what normalisation does to one track (`NormalizedTrack`), with its uniqueness and idempotence.
- `Snapping`: what each strategy does to one pitch and to one track, stated declaratively:
  - `SnapUp`: smallest allowed pitch at or above; otherwise the largest allowed pitch; otherwise 0.
  - `SnapDown`: the mirror image, with 127 as the last resort.
  - `Nearest`: the first value in list order at minimum distance, as Python's `min` picks it.
  - Also: the track-level `SnappedTrack` and the lemmas about them.
- `MidiLint`: the Python procedures as methods with their loops. Each is proved to leave every track equal to the specification function applied to its old contents.
- `NorMidi`: normidi's `normalize`, its velocity check and its command-line order of checks.

`midilint.normalize` and `normidi.normalize` are proved against the same `NormalizedTrack`, so their effects on a file are identical.

Where the code and a natural reading of the strategies differ, the model follows the code:

- `shift_nearest` breaks a tie in favour of the value listed first in `notes`, not the lower pitch. With G mixolydian listed from G, 66 becomes 67 (`Snapping.NearestTieGoesToFirstListed`), as `test/test_transpose.py` expects.
- After `shift_up` fails to go up, its second loop descends from 127, not from the original pitch. The result is the same: the largest allowed pitch below the original (`Snapping.SnapUpFallbackIsGreatestBelow`). The same holds for `shift_down` (`Snapping.SnapDownFallbackIsLeastAbove`).

## Model

| member | source | states |
|---|---|---|
| `Normalization.WithVelocity` | midilint/midilint.py:19-20 | a note message gets velocity v; every other field, and every non-note message, stays as it was |
| `Normalization.NormalizedTrack` | midilint/midilint.py:17-20 | normalisation keeps the track's length and order, changes only velocities, and gives every note message velocity v |
| `Normalization.NormalizedTrackUnique` | midilint/midilint.py:17-20 | those three properties determine the normalised track completely |
| `Normalization.NormalizeIdempotent` | midilint/midilint.py:18-20 | normalising twice with the same velocity equals normalising once |
| `Normalization.NormalizedVelocities` | test/test_velocity.py:15-18 | after normalisation every note message has velocity v |
| `MidiLint.Normalize` | midilint/midilint.py:13-21 | every track becomes `NormalizedTrack` of its old contents; the same file object is returned |
| `Snapping.LeastFrom` | midilint/midilint.py:31-32 | the smallest value of `notes` in [lo, 127], or none exactly when no value lies there |
| `Snapping.GreatestUpTo` | midilint/midilint.py:34-35 | the largest value of `notes` in [0, hi], or none exactly when no value lies there |
| `Snapping.SnapUp` | midilint/midilint.py:31-35 | shift_up's result is the smallest member of `notes` at or above p; if none, the largest member in 0..127 (below p); if none, 0; always in 0..127 |
| `Snapping.SnapDown` | midilint/midilint.py:45-49 | shift_down's result is the largest member of `notes` at or below p; if none, the smallest member in 0..127 (above p); if none, 127; always in 0..127 |
| `Snapping.NearestIndex` | midilint/midilint.py:60 | `min(notes, key=...)` picks an index at minimum distance from p, with no earlier index at that distance |
| `Snapping.Nearest` | midilint/midilint.py:60 | shift_nearest's result is a member of `notes` at minimum distance from p |
| `Snapping.SnapPitchInKey` | midilint/midilint.py:28-60 | every strategy lands on a member of `notes` when `notes` holds a pitch (nearest: when it is non-empty) |
| `Snapping.SnapPitchFixesKeyPitches` | midilint/midilint.py:31-60 | a pitch already in `notes` is left unchanged by every strategy |
| `Snapping.SnapPitchIdempotent` | midilint/midilint.py:31-60 | correcting a corrected pitch with the same strategy changes nothing |
| `Snapping.SnapUpFallbackIsGreatestBelow` | midilint/midilint.py:33-35 | when nothing allowed lies at or above p, shift_up gives the largest allowed pitch below p |
| `Snapping.SnapDownFallbackIsLeastAbove` | midilint/midilint.py:47-49 | when nothing allowed lies at or below p, shift_down gives the smallest allowed pitch above p |
| `Snapping.NearestTieGoesToFirstListed` | test/test_transpose.py:302-331 | on a tie shift_nearest keeps the value listed first: 66 becomes 67 with G listed first, 65 with C listed first |
| `Snapping.ShiftUpExample` | test/test_transpose.py:159-189 | shift_up in C minor moves 61 to 62 |
| `Snapping.ShiftDownExample` | test/test_transpose.py:16-46 | shift_down in C major moves 61 to 60 |
| `Snapping.SnapMessage` | midilint/midilint.py:58-60 | a strategy changes only the note number of a note message, to the strategy's pitch, and leaves other messages alone |
| `Snapping.SnappedTrack` | midilint/midilint.py:28-35 | a corrected track keeps its length and order, and each message is corrected on its own, in its note number only |
| `Snapping.SnappedTrackInKey` | midilint/midilint.py:28-60 | every note of a corrected track is a member of `notes` whenever the strategy can reach one |
| `Snapping.SnappedTrackIdempotent` | midilint/midilint.py:28-60 | correcting a corrected track again with the same strategy changes nothing |
| `Snapping.SnappedTrackWithoutNotes` | midilint/midilint.py:58-59 | a track with no note message is unchanged by every strategy, even with empty `notes` |
| `Snapping.SnappedTrackSplits` | midilint/midilint.py:28-29 | no state carries between messages: correcting a concatenation corrects each part |
| `Snapping.ConcatMembers` | midilint/midilint.py:72-74 | a pitch is in the extended `notes` list exactly when it is in one of the per-class lists |
| `MidiLint.ShiftPitchUp` | midilint/midilint.py:31-35 | shift_up's two loops on one note number end at `SnapUp` of it |
| `MidiLint.ShiftPitchDown` | midilint/midilint.py:45-49 | shift_down's two loops on one note number end at `SnapDown` of it |
| `MidiLint.ShiftUp` | midilint/midilint.py:24-35 | the track becomes `SnappedTrack` of its old contents under shift_up |
| `MidiLint.ShiftDown` | midilint/midilint.py:38-49 | the track becomes `SnappedTrack` of its old contents under shift_down |
| `MidiLint.ShiftNearest` | midilint/midilint.py:52-60 | ValueError exactly when `notes` is empty and the track has a note message, with the track unchanged; otherwise the track becomes `SnappedTrack` under shift_nearest |
| `MidiLint.CorrectPitch` | midilint/midilint.py:63-79 | `notes` is the concatenation of the key's lists; every track is corrected and the same file returned; ValueError only for shift_nearest with empty `notes` on a file with a note, leaving the file unchanged |
| `NorMidi.CheckVelocity` | src/normidi.py:52-56 | a velocity is accepted exactly when it lies in 0..127; otherwise ValueError |
| `NorMidi.Normalize` | src/normidi.py:8-16 | every track becomes `NormalizedTrack` of its old contents, the same as midilint's `normalize`; the same file object is returned |
| `NorMidi.Run` | src/normidi.py:38-60 | the call succeeds exactly when the destination is absent and the velocity (127 when the option is absent) lies in 0..127, and then every track is normalised to it and the same file returned; otherwise FileExistsError for an existing destination, else ValueError, both with the file untouched |

## Left out

- The key: `midi_abstraction.Key`, `Key.list_notes()` and `midi_abstraction.notes()` are an external library whose spelling and ordering rules are not part of this model. `CorrectPitch` takes the per-class pitch lists that `notes()` would return, in the order `list_notes()` would give them.
- The `strategy` argument of `correct_pitch` is any callable in Python. The model takes one of the three strategies as a `Strategy` value.
- mido's own check on attribute assignment: mido raises ValueError when a note number or velocity outside 0..127 is assigned. It is not modelled. Instead, `MidiLint.Normalize` and `NorMidi.Normalize` require a velocity in 0..127, and `MidiLint.ShiftNearest` and `MidiLint.CorrectPitch` (with shift_nearest) require every value of `notes` to be a pitch.
- Aliasing between message objects: in mido a message is an object that could be shared between tracks or slots. Here a message is a value in an array slot, and `MidiFile.Valid()` assumes no two tracks are the same list.
- `ShiftPitchUp`, `ShiftPitchDown`: the source mutates `message.note` inside the loops; the model runs the loops on a local copy and writes the message back once. The effect is the same.
- Decoding and saving files (`mido.MidiFile(...)`, `save`), argparse, and path resolution (src/normidi.py:19-25, 28-49, 58-60) are I/O. `NorMidi.Run` takes the decoded file, whether the destination exists, and the --velocity option (absent or an integer) as parameters; an absent option means `NorMidi.DefaultVelocity`, 127.
- `align`, `identify` and `transpose`, called by the tests, are not part of this model: their code is not among the modelled files.
- The MIDI fixtures of the tests are not available, so the tests' expected arrays are not reproduced. One-octave examples of the same cases are proved instead.
