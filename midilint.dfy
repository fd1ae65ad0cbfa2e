/**
 * midilint's transforms. Each walks the tracks of a file and overwrites
 * messages in place, as the Python does; each is proved to leave every track
 * equal to the corresponding specification function applied to its old
 * contents.
 */
module MidiLint {
  import opened Errors
  import opened Midi
  import opened Normalization
  import opened Snapping

  /** Sets the velocity of every note message to `velocity`; returns the same file. */
  method Normalize(source: MidiFile, velocity: int) returns (r: MidiFile)
    requires source.Valid()
    requires 0 <= velocity <= 127
    modifies source.tracks
    ensures r == source
    ensures forall u :: 0 <= u < |source.tracks| ==>
      source.tracks[u][..] == NormalizedTrack(old(source.tracks[u][..]), velocity)
  {
    for t := 0 to |source.tracks|
      invariant forall u :: 0 <= u < t ==>
        source.tracks[u][..] == NormalizedTrack(old(source.tracks[u][..]), velocity)
      invariant forall u :: t <= u < |source.tracks| ==> source.tracks[u][..] == old(source.tracks[u][..])
    {
      var track := source.tracks[t];
      for i := 0 to track.Length
        modifies track
        invariant forall k :: 0 <= k < i ==> track[k] == WithVelocity(old(track[k]), velocity)
        invariant forall k :: i <= k < track.Length ==> track[k] == old(track[k])
      {
        if IsNote(track[i]) {
          track[i] := track[i].(velocity := velocity);
        }
      }
    }
    return source;
  }

  /** The two loops shift_up runs on one note number. */
  method ShiftPitchUp(p: DataByte, notes: seq<int>) returns (q: DataByte)
    ensures q == SnapUp(p, notes)
  {
    var note: int := p;
    // Raise the note until it is in the key or reaches 127.
    while note < 127 && note !in notes
      invariant p <= note <= 127
      invariant forall x :: x in notes ==> !(p <= x < note)
    {
      note := note + 1;
    }
    // If it went past every pitch of the key, lower it until it is in the key.
    ghost var top := note;
    while note > 0 && note !in notes
      invariant 0 <= note <= top
      invariant forall x :: x in notes ==> !(note < x <= top)
    {
      note := note - 1;
    }
    if top !in notes {
      assert top == 127 && !SomeIn(notes, p, 127);
    }
    q := note;
  }

  /** The two loops shift_down runs on one note number. */
  method ShiftPitchDown(p: DataByte, notes: seq<int>) returns (q: DataByte)
    ensures q == SnapDown(p, notes)
  {
    var note: int := p;
    // Lower the note until it is in the key or reaches 0.
    while note > 0 && note !in notes
      invariant 0 <= note <= p
      invariant forall x :: x in notes ==> !(note < x <= p)
    {
      note := note - 1;
    }
    // If it went below every pitch of the key, raise it until it is in the key.
    ghost var bottom := note;
    while note < 127 && note !in notes
      invariant bottom <= note <= 127
      invariant forall x :: x in notes ==> !(bottom <= x < note)
    {
      note := note + 1;
    }
    if bottom !in notes {
      assert bottom == 0 && !SomeIn(notes, 0, p);
    }
    q := note;
  }

  /** shift_up: moves every note of the track up into the key (down when nothing lies above). */
  method ShiftUp(track: array<Message>, notes: seq<int>)
    modifies track
    ensures track[..] == SnappedTrack(old(track[..]), notes, Strategy.ShiftUp)
  {
    for i := 0 to track.Length
      invariant forall k :: 0 <= k < i ==> track[k] == SnapMessage(old(track[k]), notes, Strategy.ShiftUp)
      invariant forall k :: i <= k < track.Length ==> track[k] == old(track[k])
    {
      if IsNote(track[i]) {
        var q := ShiftPitchUp(track[i].note, notes);
        track[i] := track[i].(note := q);
      }
    }
  }

  /** shift_down: moves every note of the track down into the key (up when nothing lies below). */
  method ShiftDown(track: array<Message>, notes: seq<int>)
    modifies track
    ensures track[..] == SnappedTrack(old(track[..]), notes, Strategy.ShiftDown)
  {
    for i := 0 to track.Length
      invariant forall k :: 0 <= k < i ==> track[k] == SnapMessage(old(track[k]), notes, Strategy.ShiftDown)
      invariant forall k :: i <= k < track.Length ==> track[k] == old(track[k])
    {
      if IsNote(track[i]) {
        var q := ShiftPitchDown(track[i].note, notes);
        track[i] := track[i].(note := q);
      }
    }
  }

  /**
   * shift_nearest: moves every note of the track to the closest value of
   * notes. `min` raises ValueError on an empty list, at the first note
   * message, before anything has been changed.
   */
  method ShiftNearest(track: array<Message>, notes: seq<int>) returns (o: Outcome)
    requires AllPitches(notes)
    modifies track
    ensures o.Fail? <==> |notes| == 0 && HasNote(old(track[..]))
    ensures o.Fail? ==> o.error == ValueError && track[..] == old(track[..])
    ensures o.Pass? ==> track[..] == SnappedTrack(old(track[..]), notes, Strategy.ShiftNearest)
  {
    for i := 0 to track.Length
      invariant forall k :: 0 <= k < i ==> IsNote(old(track[k])) ==> |notes| > 0
      invariant forall k :: 0 <= k < i ==>
                  track[k] == SnapMessage(old(track[k]), notes, Strategy.ShiftNearest)
      invariant forall k :: i <= k < track.Length ==> track[k] == old(track[k])
    {
      if IsNote(track[i]) {
        if |notes| == 0 {
          assert track[..] == old(track[..]) by {
            forall k | 0 <= k < i ensures track[k] == old(track[k]) {
              assert !IsNote(old(track[k]));
            }
          }
          assert IsNote(old(track[..])[i]);
          return Fail(ValueError);
        }
        track[i] := track[i].(note := Nearest(track[i].note, notes));
      }
    }
    return Pass;
  }

  /**
   * correct_pitch: concatenates the pitch lists of the key's classes into
   * `notes`, then applies the strategy to every track; returns the same file.
   * Only shift_nearest can raise, and only when `notes` is empty and the
   * file holds a note message; the file is then unchanged.
   */
  method CorrectPitch(source: MidiFile, keyNotes: seq<seq<int>>, strategy: Strategy)
    returns (r: Result<MidiFile>)
    requires source.Valid()
    requires strategy.ShiftNearest? ==> AllPitches(Concat(keyNotes))
    modifies source.tracks
    ensures r.Err? <==>
              strategy.ShiftNearest? && Concat(keyNotes) == [] &&
              exists u :: 0 <= u < |source.tracks| && HasNote(old(source.tracks[u][..]))
    ensures r.Err? ==> r.error == ValueError
    ensures r.Err? ==>
              forall u :: 0 <= u < |source.tracks| ==> source.tracks[u][..] == old(source.tracks[u][..])
    ensures r.Ok? ==> r.value == source
    ensures r.Ok? ==>
              forall u :: 0 <= u < |source.tracks| ==>
                source.tracks[u][..] == SnappedTrack(old(source.tracks[u][..]), Concat(keyNotes), strategy)
  {
    var notes: seq<int> := [];
    for k := 0 to |keyNotes|
      invariant notes == Concat(keyNotes[..k])
    {
      assert keyNotes[..k + 1][..k] == keyNotes[..k];
      notes := notes + keyNotes[k];
    }
    assert keyNotes[..|keyNotes|] == keyNotes;

    for t := 0 to |source.tracks|
      invariant forall u :: 0 <= u < t ==>
        (HasNote(old(source.tracks[u][..])) ==> Applicable(strategy, notes)) &&
        source.tracks[u][..] == SnappedTrack(old(source.tracks[u][..]), notes, strategy)
      invariant forall u :: t <= u < |source.tracks| ==> source.tracks[u][..] == old(source.tracks[u][..])
    {
      var track := source.tracks[t];
      match strategy
      case ShiftUp =>
        ShiftUp(track, notes);
      case ShiftDown =>
        ShiftDown(track, notes);
      case ShiftNearest =>
        var o := ShiftNearest(track, notes);
        if o.Fail? {
          forall u | 0 <= u < |source.tracks|
            ensures source.tracks[u][..] == old(source.tracks[u][..])
          {
            if u < t {
              SnappedTrackWithoutNotes(old(source.tracks[u][..]), notes, strategy);
            }
          }
          return Err(o.error);
        }
    }
    return Ok(source);
  }
}
