/**
 * What the three pitch-correction strategies of midilint do to one pitch and
 * to one track, stated declaratively: the methods in MidiLint that run the
 * source's loops are proved to compute these functions.
 */
module Snapping {
  import opened Errors
  import opened Midi

  /** The strategies that correct_pitch accepts. */
  datatype Strategy = ShiftUp | ShiftDown | ShiftNearest

  /** Every value in notes is a valid MIDI pitch. */
  predicate AllPitches(notes: seq<int>) {
    forall x :: x in notes ==> 0 <= x <= 127
  }

  /** Some value of notes lies in [lo, hi]. */
  predicate SomeIn(notes: seq<int>, lo: int, hi: int) {
    exists x :: x in notes && lo <= x <= hi
  }

  /** The smallest value of notes in [lo, 127], if there is one. */
  function LeastFrom(notes: seq<int>, lo: DataByte): (r: Option<DataByte>)
    ensures r.Some? ==> r.value in notes && lo <= r.value
    ensures r.Some? ==> forall x :: x in notes && lo <= x <= 127 ==> r.value <= x
    ensures r.None? <==> !SomeIn(notes, lo, 127)
  {
    if |notes| == 0 then None
    else
      var rest := LeastFrom(notes[1..], lo);
      assert forall x :: x in notes <==> x == notes[0] || x in notes[1..];
      if lo <= notes[0] <= 127 && (rest.None? || notes[0] <= rest.value) then Some(notes[0] as DataByte)
      else rest
  }

  /** The largest value of notes in [0, hi], if there is one. */
  function GreatestUpTo(notes: seq<int>, hi: DataByte): (r: Option<DataByte>)
    ensures r.Some? ==> r.value in notes && r.value <= hi
    ensures r.Some? ==> forall x :: x in notes && 0 <= x <= hi ==> x <= r.value
    ensures r.None? <==> !SomeIn(notes, 0, hi)
  {
    if |notes| == 0 then None
    else
      var rest := GreatestUpTo(notes[1..], hi);
      assert forall x :: x in notes <==> x == notes[0] || x in notes[1..];
      if 0 <= notes[0] <= hi && (rest.None? || rest.value <= notes[0]) then Some(notes[0] as DataByte)
      else rest
  }

  /**
   * shift_up on one pitch: the smallest allowed pitch at or above p; when
   * there is none, the largest allowed pitch; when no value of notes is a
   * pitch at all, 0.
   */
  function SnapUp(p: DataByte, notes: seq<int>): (r: DataByte)
    ensures SomeIn(notes, p, 127) ==>
      r in notes && p <= r && forall x :: x in notes && p <= x <= 127 ==> r <= x
    ensures !SomeIn(notes, p, 127) && SomeIn(notes, 0, 127) ==>
      r in notes && r < p && forall x :: x in notes && 0 <= x <= 127 ==> x <= r
    ensures !SomeIn(notes, 0, 127) ==> r == 0
  {
    match LeastFrom(notes, p)
    case Some(x) => x
    case None =>
      match GreatestUpTo(notes, 127)
      case Some(y) =>
        y
      case None => 0
  }

  /**
   * shift_down on one pitch: the largest allowed pitch at or below p; when
   * there is none, the smallest allowed pitch; when no value of notes is a
   * pitch at all, 127.
   */
  function SnapDown(p: DataByte, notes: seq<int>): (r: DataByte)
    ensures SomeIn(notes, 0, p) ==>
      r in notes && r <= p && forall x :: x in notes && 0 <= x <= p ==> x <= r
    ensures !SomeIn(notes, 0, p) && SomeIn(notes, 0, 127) ==>
      r in notes && p < r && forall x :: x in notes && 0 <= x <= 127 ==> r <= x
    ensures !SomeIn(notes, 0, 127) ==> r == 127
  {
    match GreatestUpTo(notes, p)
    case Some(x) => x
    case None =>
      match LeastFrom(notes, 0)
      case Some(y) =>
        y
      case None => 127
  }

  function Distance(x: int, p: int): nat {
    if x < p then p - x else x - p
  }

  /**
   * The index that Python's `min(notes, key=lambda x: abs(x - p))` picks:
   * one at minimum distance from p, and the first such in list order.
   */
  function NearestIndex(notes: seq<int>, p: int): (i: nat)
    requires |notes| > 0
    ensures i < |notes|
    ensures forall j :: 0 <= j < |notes| ==> Distance(notes[i], p) <= Distance(notes[j], p)
    ensures forall j :: 0 <= j < i ==> Distance(notes[i], p) < Distance(notes[j], p)
  {
    if |notes| == 1 then 0
    else
      var k := NearestIndex(notes[..|notes| - 1], p);
      if Distance(notes[|notes| - 1], p) < Distance(notes[k], p) then |notes| - 1 else k
  }

  /** shift_nearest on one pitch: a value of notes closest to p. */
  function Nearest(p: int, notes: seq<int>): (r: int)
    requires |notes| > 0
    ensures r in notes
    ensures forall x :: x in notes ==> Distance(r, p) <= Distance(x, p)
  {
    notes[NearestIndex(notes, p)]
  }

  /** What a strategy needs of notes: shift_nearest calls `min`, which raises on an empty list. */
  predicate Applicable(s: Strategy, notes: seq<int>) {
    s.ShiftNearest? ==> |notes| > 0 && AllPitches(notes)
  }

  /** The pitch a strategy gives p. */
  function SnapPitch(s: Strategy, p: DataByte, notes: seq<int>): DataByte
    requires Applicable(s, notes)
  {
    match s
    case ShiftUp => SnapUp(p, notes)
    case ShiftDown => SnapDown(p, notes)
    case ShiftNearest => Nearest(p, notes)
  }

  /** Some value of notes is a pitch the strategy can land on. */
  predicate Reachable(s: Strategy, notes: seq<int>) {
    if s.ShiftNearest? then |notes| > 0 else SomeIn(notes, 0, 127)
  }

  /** Every strategy lands on a value of notes whenever it can. */
  lemma SnapPitchInKey(s: Strategy, p: DataByte, notes: seq<int>)
    requires Applicable(s, notes) && Reachable(s, notes)
    ensures SnapPitch(s, p, notes) in notes
  {
    match s
    case ShiftUp =>
      if !SomeIn(notes, p, 127) {
        assert SomeIn(notes, 0, 127);
      }
    case ShiftDown =>
      if !SomeIn(notes, 0, p) {
        assert SomeIn(notes, 0, 127);
      }
    case ShiftNearest =>
  }

  /** A pitch already in notes is left where it is by every strategy. */
  lemma SnapPitchFixesKeyPitches(s: Strategy, p: DataByte, notes: seq<int>)
    requires Applicable(s, notes) && p in notes
    ensures SnapPitch(s, p, notes) == p
  {
    match s
    case ShiftUp => assert SomeIn(notes, p, 127);
    case ShiftDown => assert SomeIn(notes, 0, p);
    case ShiftNearest =>
  }

  /** Correcting a corrected pitch again changes nothing. */
  lemma SnapPitchIdempotent(s: Strategy, p: DataByte, notes: seq<int>)
    requires Applicable(s, notes)
    ensures SnapPitch(s, SnapPitch(s, p, notes), notes) == SnapPitch(s, p, notes)
  {
    var q := SnapPitch(s, p, notes);
    if Reachable(s, notes) {
      SnapPitchInKey(s, p, notes);
      SnapPitchFixesKeyPitches(s, q, notes);
    } else {
      match s
      case ShiftUp => assert q == 0 && !SomeIn(notes, 0, 127);
      case ShiftDown => assert q == 127 && !SomeIn(notes, 0, 127);
    }
  }

  /**
   * shift_up's second loop starts again from 127, not from the original
   * pitch, but it lands where a descent from the original pitch would: on
   * the largest allowed pitch below p.
   */
  lemma SnapUpFallbackIsGreatestBelow(p: DataByte, notes: seq<int>)
    requires !SomeIn(notes, p, 127) && SomeIn(notes, 0, p)
    ensures Some(SnapUp(p, notes)) == GreatestUpTo(notes, p)
  {
    var g := GreatestUpTo(notes, p);
    var r := SnapUp(p, notes);
    assert SomeIn(notes, 0, 127) by {
      var x :| x in notes && 0 <= x <= p;
    }
    assert r <= g.value;
    assert g.value <= r;
  }

  /** shift_down's mirror image of SnapUpFallbackIsGreatestBelow. */
  lemma SnapDownFallbackIsLeastAbove(p: DataByte, notes: seq<int>)
    requires !SomeIn(notes, 0, p) && SomeIn(notes, p, 127)
    ensures Some(SnapDown(p, notes)) == LeastFrom(notes, p)
  {
    var l := LeastFrom(notes, p);
    var r := SnapDown(p, notes);
    assert SomeIn(notes, 0, 127) by {
      var x :| x in notes && p <= x <= 127;
    }
    assert l.value <= r;
    assert r <= l.value;
  }

  /**
   * On a tie shift_nearest keeps the value that comes first in notes, which
   * need not be the lower pitch: with the pitches of G mixolydian listed from
   * G, 66 goes up to 67, not down to 65.
   */
  lemma NearestTieGoesToFirstListed()
    ensures Nearest(66, [67, 69, 71, 60, 62, 64, 65]) == 67
    ensures Nearest(66, [60, 62, 64, 65, 67, 69, 71]) == 65
  {
    var fromG := [67, 69, 71, 60, 62, 64, 65];
    var i := NearestIndex(fromG, 66);
    assert Distance(fromG[0], 66) == 1;
    assert forall j :: 0 <= j < |fromG| ==> fromG[j] != 66;
    assert i == 0;
    var fromC := [60, 62, 64, 65, 67, 69, 71];
    var k := NearestIndex(fromC, 66);
    assert Distance(fromC[3], 66) == 1;
    assert forall j :: 0 <= j < |fromC| ==> fromC[j] != 66 && (j < 3 ==> Distance(fromC[j], 66) > 1);
    assert k == 3;
  }

  /** shift_up in C minor (one octave, listed from C): 61 goes up to 62. */
  lemma ShiftUpExample()
    ensures SnapUp(61, [60, 62, 63, 65, 67, 68, 70]) == 62
  {
    var key := [60, 62, 63, 65, 67, 68, 70];
    assert key[1] == 62 && 62 in key;
    assert SomeIn(key, 61, 127);
    var r := SnapUp(61, key);
    assert 61 <= r <= 62;
    assert 61 !in key;
  }

  /** shift_down in C major (one octave, listed from C): 61 goes down to 60. */
  lemma ShiftDownExample()
    ensures SnapDown(61, [60, 62, 64, 65, 67, 69, 71]) == 60
  {
    var key := [60, 62, 64, 65, 67, 69, 71];
    assert key[0] == 60 && 60 in key;
    assert SomeIn(key, 0, 61);
    var r := SnapDown(61, key);
    assert 60 <= r <= 61;
    assert 61 !in key;
  }

  /** A note message after correction: only its note number may change. */
  function SnapMessage(m: Message, notes: seq<int>, s: Strategy): (r: Message)
    requires IsNote(m) ==> Applicable(s, notes)
    ensures SameButNote(m, r)
    ensures IsNote(m) ==> IsNote(r) && r.note == SnapPitch(s, m.note, notes)
  {
    if IsNote(m) then m.(note := SnapPitch(s, m.note, notes)) else m
  }

  /**
   * A track after correction: same length and order, each message corrected
   * on its own, nothing but note numbers changed.
   */
  function SnappedTrack(t: seq<Message>, notes: seq<int>, s: Strategy): (r: seq<Message>)
    requires HasNote(t) ==> Applicable(s, notes)
    ensures |r| == |t|
    ensures forall i :: 0 <= i < |t| ==> SameButNote(t[i], r[i])
    ensures forall i :: 0 <= i < |t| && IsNote(t[i]) ==>
      IsNote(r[i]) && r[i].note == SnapPitch(s, t[i].note, notes)
  {
    seq(|t|, i requires 0 <= i < |t| => SnapMessage(t[i], notes, s))
  }

  /** Every corrected note lies in the key whenever the strategy can reach it. */
  lemma SnappedTrackInKey(t: seq<Message>, notes: seq<int>, s: Strategy)
    requires Applicable(s, notes) && Reachable(s, notes)
    ensures forall m :: m in SnappedTrack(t, notes, s) && IsNote(m) ==> m.note in notes
  {
    var r := SnappedTrack(t, notes, s);
    forall m | m in r && IsNote(m)
      ensures m.note in notes
    {
      var i :| 0 <= i < |r| && r[i] == m;
      assert SameButNote(t[i], r[i]);
      SnapPitchInKey(s, t[i].note, notes);
    }
  }

  /** Correcting a corrected track again changes nothing. */
  lemma SnappedTrackIdempotent(t: seq<Message>, notes: seq<int>, s: Strategy)
    requires Applicable(s, notes)
    ensures SnappedTrack(SnappedTrack(t, notes, s), notes, s) == SnappedTrack(t, notes, s)
  {
    var once := SnappedTrack(t, notes, s);
    var twice := SnappedTrack(once, notes, s);
    forall i | 0 <= i < |t|
      ensures twice[i] == once[i]
    {
      assert SameButNote(t[i], once[i]);
      assert SameButNote(once[i], twice[i]);
      if IsNote(t[i]) {
        SnapPitchIdempotent(s, t[i].note, notes);
      }
    }
  }

  /** A track without note messages is left as it is, whatever notes is. */
  lemma SnappedTrackWithoutNotes(t: seq<Message>, notes: seq<int>, s: Strategy)
    requires !HasNote(t)
    ensures SnappedTrack(t, notes, s) == t
  {
    var r := SnappedTrack(t, notes, s);
    forall i | 0 <= i < |t|
      ensures r[i] == t[i]
    {
      assert !IsNote(t[i]);
      assert SameButNote(t[i], r[i]);
    }
  }

  /** No state carries from one message to the next: a track is corrected piece by piece. */
  lemma SnappedTrackSplits(t1: seq<Message>, t2: seq<Message>, notes: seq<int>, s: Strategy)
    requires Applicable(s, notes)
    ensures SnappedTrack(t1 + t2, notes, s) == SnappedTrack(t1, notes, s) + SnappedTrack(t2, notes, s)
  {
    var whole := SnappedTrack(t1 + t2, notes, s);
    var parts := SnappedTrack(t1, notes, s) + SnappedTrack(t2, notes, s);
    forall i | 0 <= i < |t1| + |t2|
      ensures whole[i] == parts[i]
    {
      var m := (t1 + t2)[i];
      assert SameButNote(m, whole[i]) && SameButNote(m, parts[i]);
    }
  }

  /** The pitches correct_pitch snaps to: the per-class lists, one after another. */
  function Concat(groups: seq<seq<int>>): seq<int> {
    if |groups| == 0 then [] else Concat(groups[..|groups| - 1]) + groups[|groups| - 1]
  }

  /** A pitch is in the concatenation exactly when it is in one of the lists. */
  lemma {:induction false} ConcatMembers(groups: seq<seq<int>>, x: int)
    ensures x in Concat(groups) <==> exists g :: g in groups && x in g
  {
    if |groups| > 0 {
      var init := groups[..|groups| - 1];
      var last := groups[|groups| - 1];
      ConcatMembers(init, x);
      assert groups == init + [last];
      if x in Concat(groups) && x !in last {
        var g :| g in init && x in g;
        assert g in groups;
      }
      if x in last {
        assert last in groups;
      }
    }
  }
}
