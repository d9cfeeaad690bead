/** Load schedules as objects: segments are appended, and a changed schedule is spliced onto a running one. */
module ModIntervals {
  import opened LinearSegments

  class ModInterval {
    var segments: seq<LinearSegment>
    var duration: real
    const root: Root

    ghost predicate Valid()
      reads this
    {
      Positive(root) && AllWellFormed(segments) && duration == Total(segments)
    }

    constructor (root: Root)
      requires Positive(root)
      ensures Valid() && segments == [] && this.root == root
    {
      segments := [];
      duration := 0.0;
      this.root := root;
    }

    // Rates come per second.
    method AppendSegment(start: real, duration: real, end: real)
      requires Valid() && duration >= 0.0
      modifies this
      ensures Valid() && segments == old(segments) + [New(start, end, duration, root)]
      ensures this.duration == old(this.duration) + duration
    {
      var segment := New(start, end, duration, root);
      NewIsWellFormed(start, end, duration, root);
      TotalOfAppended(segments, segment);
      this.duration := this.duration + duration;
      segments := segments + [segment];
    }

    // The first segment that goes on after `time`, or the last one, and when it starts.
    method FindSegment(time: real) returns (i: nat, xOffset: real)
      requires Valid() && segments != []
      ensures i < |segments|
      ensures InForce(segments, time) == (segments[i], time - xOffset)
      ensures xOffset == Total(segments[..i])
      ensures segments[i].duration + xOffset > time || i == |segments| - 1
      ensures Rest(segments, time, root) == Rest(segments[i..], time - xOffset, root)
    {
      xOffset := 0.0;
      i := 0;
      assert segments[0..] == segments;
      while !(segments[i].duration + xOffset > time || i == |segments| - 1)
        invariant i < |segments| && xOffset == Total(segments[..i])
        invariant InForce(segments, time) == InForce(segments[i..], time - xOffset)
        invariant Rest(segments, time, root) == Rest(segments[i..], time - xOffset, root)
      {
        TotalOfAppended(segments[..i], segments[i]);
        assert segments[..i] + [segments[i]] == segments[..i + 1];
        assert segments[i..][1..] == segments[i + 1..];
        xOffset := xOffset + segments[i].duration;
        i := i + 1;
      }
    }

    // A schedule that replaces `previous` after `at`, going over to its own rates within `over`.
    method TransitionFrom(previous: ModInterval, at: real, over: real)
      requires Valid() && previous.Valid() && previous != this
      requires segments != [] && previous.segments != []
      requires at >= 0.0 && over >= 0.0
      modifies this
      ensures Valid()
      ensures previous.duration < at || old(duration) < at ==> segments == old(segments)
      ensures previous.duration >= at && old(duration) >= at ==>
                && duration == old(duration) - at
                && segments == Spliced(previous.segments, old(segments), at,
                                       if old(duration) < at + over then old(duration) - at else over, root)
    {
      if previous.duration < at || duration < at {
        return;
      }
      var over := over;
      if duration < at + over {
        over := duration - at;
      }
      Splice(previous, at, over);
    }

    method Splice(previous: ModInterval, at: real, over: real)
      requires Valid() && previous.Valid() && previous != this
      requires segments != [] && previous.segments != []
      requires at >= 0.0 && over >= 0.0 && at + over <= duration
      modifies this
      ensures Valid()
      ensures segments == Spliced(previous.segments, old(segments), at, over, root)
      ensures duration == old(duration) - at
    {
      ghost var spliced := Spliced(previous.segments, segments, at, over, root);
      SpliceIsValid(previous.segments, segments, at, over, root);
      var transitionStartHps := StartHps(previous, at);
      var transitionEndHps := CutAt(at + over);
      var transitionSegment := New(transitionStartHps, transitionEndHps, over, root);
      segments := [transitionSegment] + segments;
      duration := duration - at;
      assert segments == spliced;
    }

    method StartHps(previous: ModInterval, at: real) returns (hps: real)
      requires previous.Valid() && previous.segments != []
      ensures hps == RateAt(previous.segments, at)
    {
      var i, xOffset := previous.FindSegment(at);
      hps := HpsAt(previous.segments[i], at - xOffset);
    }

    // Leaves what comes after `time`, and tells the rate there.
    method CutAt(time: real) returns (endHps: real)
      requires Valid() && segments != [] && time <= duration
      modifies this`segments
      ensures segments == Rest(old(segments), time, root) && endHps == RateAt(old(segments), time)
    {
      var i, xOffset := FindSegment(time);
      var postTransitionSegment := segments[i];
      var segmentX := time - xOffset;
      endHps := HpsAt(postTransitionSegment, segmentX);
      var afterDuration := postTransitionSegment.duration - segmentX;
      RestOfSuffix(segments, i, segmentX, root);
      if afterDuration == 0.0 {
        segments := segments[..|segments| - 1];
      } else {
        var postEndHps := HpsAt(postTransitionSegment, postTransitionSegment.duration);
        segments := segments[i := New(endHps, postEndHps, afterDuration, root)];
      }
      segments := segments[i..];
    }
  }

  lemma RestOfSuffix(segments: seq<LinearSegment>, i: nat, x: real, root: Root)
    requires i < |segments| && (segments[i].duration > x || i == |segments| - 1)
    ensures var s := segments[i];
            Rest(segments[i..], x, root)
            == if s.duration - x != 0.0 then
                 segments[i := New(HpsAt(s, x), HpsAt(s, s.duration), s.duration - x, root)][i..]
               else segments[..|segments| - 1][i..]
  {
    assert segments[i..][0] == segments[i];
  }

  lemma {:induction false} TotalOfAppended(segments: seq<LinearSegment>, s: LinearSegment)
    ensures Total(segments + [s]) == Total(segments) + s.duration
  {
    if segments == [] {
      assert segments + [s] == [s] && [s][1..] == [];
    } else {
      TotalOfAppended(segments[1..], s);
      assert (segments + [s])[1..] == segments[1..] + [s];
    }
  }

  lemma SpliceIsValid(previous: seq<LinearSegment>, segments: seq<LinearSegment>, at: real, over: real, root: Root)
    requires previous != [] && segments != [] && AllWellFormed(segments) && Positive(root)
    requires at >= 0.0 && over >= 0.0 && at + over <= Total(segments)
    ensures var spliced := Spliced(previous, segments, at, over, root);
            AllWellFormed(spliced) && Total(spliced) == Total(segments) - at
  {
    var spliced := Spliced(previous, segments, at, over, root);
    NewIsWellFormed(RateAt(previous, at), RateAt(segments, at + over), over, root);
    RestTotal(segments, at + over, root);
    RestIsWellFormed(segments, at + over, root);
    assert spliced[1..] == Rest(segments, at + over, root);
  }
}
