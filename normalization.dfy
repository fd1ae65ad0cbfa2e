/**
 * What velocity normalisation does to one track: every note_on and note_off
 * message gets the given velocity and nothing else changes. Both
 * midilint.normalize and normidi.normalize are proved against these functions.
 */
module Normalization {
  import opened Midi

  /** The message with its velocity set to v when it is a note message. */
  function WithVelocity(m: Message, v: DataByte): (r: Message)
    ensures SameButVelocity(m, r)
    ensures IsNote(m) ==> r.velocity == v
  {
    if IsNote(m) then m.(velocity := v) else m
  }

  /** The track after normalisation: same length and order, only velocities of notes changed. */
  function NormalizedTrack(t: seq<Message>, v: DataByte): (r: seq<Message>)
    ensures |r| == |t|
    ensures forall i :: 0 <= i < |t| ==> SameButVelocity(t[i], r[i])
    ensures forall i :: 0 <= i < |t| && IsNote(t[i]) ==> IsNote(r[i]) && r[i].velocity == v
  {
    seq(|t|, i requires 0 <= i < |t| => WithVelocity(t[i], v))
  }

  /** The contract of NormalizedTrack determines it: any track with those properties is it. */
  lemma NormalizedTrackUnique(t: seq<Message>, v: DataByte, r: seq<Message>)
    requires |r| == |t|
    requires forall i :: 0 <= i < |t| ==> SameButVelocity(t[i], r[i])
    requires forall i :: 0 <= i < |t| && IsNote(t[i]) ==> IsNote(r[i]) && r[i].velocity == v
    ensures r == NormalizedTrack(t, v)
  {
    var n := NormalizedTrack(t, v);
    forall i | 0 <= i < |t|
      ensures r[i] == n[i]
    {
      assert SameButVelocity(t[i], r[i]) && SameButVelocity(t[i], n[i]);
    }
  }

  /** Normalising twice with the same velocity is normalising once. */
  lemma NormalizeIdempotent(t: seq<Message>, v: DataByte)
    ensures NormalizedTrack(NormalizedTrack(t, v), v) == NormalizedTrack(t, v)
  {
    var once := NormalizedTrack(t, v);
    var twice := NormalizedTrack(once, v);
    forall i | 0 <= i < |t|
      ensures twice[i] == once[i]
    {
      assert SameButVelocity(t[i], once[i]);
      assert SameButVelocity(once[i], twice[i]);
    }
  }

  /** After normalisation every note message carries velocity v. */
  lemma NormalizedVelocities(t: seq<Message>, v: DataByte)
    ensures forall m :: m in NormalizedTrack(t, v) && IsNote(m) ==> m.velocity == v
  {
    var r := NormalizedTrack(t, v);
    forall m | m in r && IsNote(m)
      ensures m.velocity == v
    {
      var i :| 0 <= i < |r| && r[i] == m;
      assert SameButVelocity(t[i], r[i]);
    }
  }
}
