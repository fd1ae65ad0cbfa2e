/**
 * normidi: a stand-alone copy of midilint's velocity normaliser and the
 * checks its command line runs before touching a file. Decoding SOURCE and
 * saving DEST are done by mido and are not part of this model; the decoded
 * file is a parameter.
 */
module NorMidi {
  import opened Errors
  import opened Midi
  import opened Normalization

  /** The velocity the command line uses when none is given. */
  const DefaultVelocity: DataByte := 127

  /** The value of the --velocity option: the one given, or the default. */
  function VelocityOption(arg: Option<int>): int {
    match arg
    case Some(v) => v
    case None => DefaultVelocity
  }

  /** The command line's range check: a velocity is accepted exactly when it is a data byte. */
  function CheckVelocity(velocity: int): (r: Result<DataByte>)
    ensures r.Ok? <==> 0 <= velocity <= 127
    ensures r.Ok? ==> r.value == velocity
    ensures r.Err? ==> r.error == ValueError
  {
    if velocity < 0 || velocity > 127 then Err(ValueError) else Ok(velocity)
  }

  /** Sets the velocity of every note message to `velocity`; returns the same file. */
  method Normalize(source: MidiFile, velocity: int) returns (r: MidiFile)
    requires source.Valid()
    requires 0 <= velocity <= 127
    modifies source.tracks
    ensures r == source
    ensures forall u :: 0 <= u < |source.tracks| ==>
      source.tracks[u][..] == NormalizedTrack(old(source.tracks[u][..]), velocity)
  {
    for t := 0 to |source.tracks|
      invariant forall u :: 0 <= u < t ==>
        source.tracks[u][..] == NormalizedTrack(old(source.tracks[u][..]), velocity)
      invariant forall u :: t <= u < |source.tracks| ==> source.tracks[u][..] == old(source.tracks[u][..])
    {
      var track := source.tracks[t];
      for i := 0 to track.Length
        modifies track
        invariant forall k :: 0 <= k < i ==> track[k] == WithVelocity(old(track[k]), velocity)
        invariant forall k :: i <= k < track.Length ==> track[k] == old(track[k])
      {
        if IsNote(track[i]) {
          track[i] := track[i].(velocity := velocity);
        }
      }
    }
    return source;
  }

  /**
   * The command line on an already decoded SOURCE: refuse an existing DEST,
   * then an out-of-range velocity, both before the file is touched; otherwise
   * normalise. `velocityArg` is the --velocity option, None when it is absent.
   */
  method Run(source: MidiFile, destExists: bool, velocityArg: Option<int>) returns (r: Result<MidiFile>)
    requires source.Valid()
    modifies source.tracks
    ensures r.Ok? <==> !destExists && 0 <= VelocityOption(velocityArg) <= 127
    ensures destExists ==> r == Err(FileExistsError)
    ensures r.Err? && !destExists ==> r.error == ValueError
    ensures r.Err? ==>
              forall u :: 0 <= u < |source.tracks| ==> source.tracks[u][..] == old(source.tracks[u][..])
    ensures r.Ok? ==> r.value == source
    ensures r.Ok? ==>
              forall u :: 0 <= u < |source.tracks| ==>
                source.tracks[u][..] == NormalizedTrack(old(source.tracks[u][..]), VelocityOption(velocityArg))
  {
    if destExists {
      return Err(FileExistsError);
    }
    var checked := CheckVelocity(VelocityOption(velocityArg));
    if checked.Err? {
      return Err(checked.error);
    }
    var output := Normalize(source, checked.value);
    return Ok(output);
  }
}
