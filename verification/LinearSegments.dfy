/**
 Load schedules: pieces of straight lines, in hits per second over seconds. Durations and rates are reals;
 `None` stands for a quotient that is not a finite number.
 */
module LinearSegments {
  import opened Wrappers
  import opened Arithmetic

  datatype LinearSegment = LinearSegment(
    m: Option<real>, b: real, minY: Option<real>, yLimit: Option<real>, duration: real)

  // The least rate of a slope: 2m / sqrt(8m), of which only the sign matters here.
  type Root = real -> real

  ghost predicate Positive(root: Root) {
    forall x :: x > 0.0 ==> root(x) > 0.0
  }

  function Abs(x: real): real {
    if x < 0.0 then -x else x
  }

  function New(startHps: real, endHps: real, duration: real, root: Root): LinearSegment {
    if duration == 0.0 then LinearSegment(None, startHps, None, None, duration)
    else
      var m := (endHps - startHps) / duration;
      LinearSegment(Some(m), startHps, if m == 0.0 then None else Some(root(Abs(m))), Some(1.0 / duration), duration)
  }

  predicate WellFormed(s: LinearSegment) {
    && s.duration >= 0.0
    && (s.duration > 0.0 <==> s.m.Some?) && (s.m.Some? <==> s.yLimit.Some?)
    && (s.minY.Some? <==> s.m.Some? && s.m.value != 0.0)
    && (s.minY.Some? ==> s.minY.value > 0.0)
    && (s.yLimit.Some? ==> s.yLimit.value > 0.0)
  }

  // The line itself.
  function Line(s: LinearSegment, x: real): real {
    if s.m.None? then 0.0 else s.m.value * x + s.b
  }

  // The rate at `x`: a rate of less than one hit in the whole segment is replaced by the segment's least rate,
  // which may be lower still, or is 0 for a flat segment.
  function HpsAt(s: LinearSegment, x: real): real {
    var y := Line(s, x);
    if s.m.None? || s.yLimit.None? then 0.0
    else if y < s.yLimit.value then (if s.minY.Some? then s.minY.value else 0.0)
    else y
  }

  lemma PositiveQuotient(x: real, y: real)
    requires x > 0.0 && y > 0.0
    ensures x / y > 0.0
  {
  }

  lemma NewIsWellFormed(startHps: real, endHps: real, duration: real, root: Root)
    requires duration >= 0.0 && Positive(root)
    ensures WellFormed(New(startHps, endHps, duration, root))
  {
    if duration > 0.0 {
      PositiveQuotient(1.0, duration);
    }
  }

  lemma SlopeTimesDuration(rise: real, duration: real)
    requires duration != 0.0
    ensures rise / duration * duration == rise
  {
  }

  // A new segment's line goes from one rate to the other.
  lemma NewEnds(startHps: real, endHps: real, duration: real, root: Root)
    requires duration != 0.0
    ensures Line(New(startHps, endHps, duration, root), 0.0) == startHps
    ensures Line(New(startHps, endHps, duration, root), duration) == endHps
  {
    SlopeTimesDuration(endHps - startHps, duration);
  }

  lemma LineBetween(m: real, b: real, x: real, d: real)
    requires 0.0 <= x <= d
    ensures m * x + b <= b || m * x + b <= m * d + b
    ensures m * x + b >= b || m * x + b >= m * d + b
  {
    if m >= 0.0 {
      assert m * x <= m * d;
    } else {
      assert m * x <= 0.0;
      assert m * x >= m * d;
    }
  }

  // Rates are never negative, and within a segment never above its ends and its least rate.
  lemma RatesAreBounded(s: LinearSegment, x: real, peak: real)
    requires WellFormed(s) && 0.0 <= x <= s.duration
    requires peak >= 0.0 && Line(s, 0.0) <= peak && Line(s, s.duration) <= peak
    requires s.minY.Some? ==> s.minY.value <= peak
    ensures 0.0 <= HpsAt(s, x) <= peak
  {
    if s.m.Some? {
      LineBetween(s.m.value, s.b, x, s.duration);
    }
  }

  // `limit` is one hit per `duration`.
  lemma RateTimesDuration(y: real, limit: real, duration: real)
    requires duration > 0.0 && limit * duration == 1.0
    ensures y < limit <==> y * duration < 1.0
  {
    if y < limit {
      LessTimes(y, limit, duration, y * duration, 1.0);
    } else if limit < y {
      LessTimes(limit, y, duration, 1.0, y * duration);
    } else {
      SameTimes(y, limit, duration, y * duration, 1.0);
    }
  }

  lemma SameTimes(a: real, b: real, c: real, ac: real, bc: real)
    requires a == b && ac == a * c && bc == b * c
    ensures ac == bc
  {
  }

  // A rate that promises at least one hit in the segment's duration is the line's; a lower one is replaced by
  // the least rate of a sloped segment, and is no rate at all on a flat one.
  lemma RateMeans(startHps: real, endHps: real, duration: real, x: real, root: Root)
    requires duration > 0.0 && Positive(root)
    ensures var s := New(startHps, endHps, duration, root);
            && (Line(s, x) * duration >= 1.0 ==> HpsAt(s, x) == Line(s, x) > 0.0)
            && (s.minY.Some? <==> startHps != endHps)
            && (Line(s, x) * duration < 1.0 ==>
                  if startHps == endHps then HpsAt(s, x) == 0.0 else HpsAt(s, x) == s.minY.value > 0.0)
  {
    var s, limit := New(startHps, endHps, duration, root), 1.0 / duration;
    var y := Line(s, x);
    SlopeTimesDuration(1.0, duration);
    RateTimesDuration(y, limit, duration);
    PositiveQuotient(1.0, duration);
    FlatExactly(endHps - startHps, duration);
    assert s.yLimit == Some(limit) && (s.minY.None? <==> startHps == endHps);
  }

  // The least rate as the square root it is.
  ghost predicate IsLeastRate(root: Root) {
    forall m :: m > 0.0 ==> root(m) > 0.0 && 2.0 * root(m) * root(m) == m
  }

  // Twice its square is the steepness of the slope.
  lemma LeastRateOf(startHps: real, endHps: real, duration: real, root: Root)
    requires duration > 0.0 && IsLeastRate(root) && startHps != endHps
    ensures var least := New(startHps, endHps, duration, root).minY;
            least.Some? && least.value > 0.0
            && 2.0 * least.value * least.value * duration == Abs(endHps - startHps)
  {
    var m, y := (endHps - startHps) / duration, root(Abs((endHps - startHps) / duration));
    FlatExactly(endHps - startHps, duration);
    assert m != 0.0 && Abs(m) > 0.0;
    assert 2.0 * y * y == Abs(m);
    SteepnessTimes(endHps - startHps, duration, Abs(m));
    SameTimes(2.0 * y * y, Abs(m), duration, 2.0 * y * y * duration, Abs(m) * duration);
  }

  lemma SteepnessTimes(rise: real, duration: real, steepness: real)
    requires duration > 0.0 && steepness == Abs(rise / duration)
    ensures steepness * duration == Abs(rise)
  {
    var m := rise / duration;
    assert m * duration == rise;
    if m < 0.0 {
      assert -m * duration == -rise;
    }
  }

  // The segment in force: as far into it as is left of `t` after those before it.
  lemma {:induction false} InForceMeans(segments: seq<LinearSegment>, t: real)
    requires segments != [] && t >= 0.0
    ensures var (s, x) := InForce(segments, t);
            exists i :: 0 <= i < |segments| && s == segments[i] && x == t - Total(segments[..i]) && x >= 0.0
                        && (x < s.duration || i == |segments| - 1)
    decreases |segments|
  {
    var (s, x) := InForce(segments, t);
    if segments[0].duration > t || |segments| == 1 {
      assert segments[..0] == [];
      assert s == segments[0] && x == t - Total(segments[..0]);
    } else {
      InForceMeans(segments[1..], t - segments[0].duration);
      var i :| 0 <= i < |segments[1..]| && s == segments[1..][i]
               && x == t - segments[0].duration - Total(segments[1..][..i]) && x >= 0.0
               && (x < s.duration || i == |segments[1..]| - 1);
      assert segments[..i + 1][0] == segments[0] && segments[..i + 1][1..] == segments[1..][..i];
      assert s == segments[i + 1] && x == t - Total(segments[..i + 1]);
    }
  }

  lemma FlatExactly(rise: real, duration: real)
    requires duration > 0.0
    ensures rise / duration == 0.0 <==> rise == 0.0
  {
    SlopeTimesDuration(rise, duration);
    if rise / duration == 0.0 {
      SameTimes(rise / duration, 0.0, duration, rise, 0.0);
    }
  }

  // ---------- schedules ----------

  function Total(segments: seq<LinearSegment>): real {
    if segments == [] then 0.0 else segments[0].duration + Total(segments[1..])
  }

  predicate AllWellFormed(segments: seq<LinearSegment>) {
    forall k :: 0 <= k < |segments| ==> WellFormed(segments[k])
  }

  // The line in force at `t`; the last segment's goes on.
  function LineAt(segments: seq<LinearSegment>, t: real): real
    requires segments != []
  {
    if segments[0].duration > t || |segments| == 1 then Line(segments[0], t)
    else LineAt(segments[1..], t - segments[0].duration)
  }

  // The segment in force at `t`, and how far into it that is.
  function InForce(segments: seq<LinearSegment>, t: real): (LinearSegment, real)
    requires segments != []
  {
    if segments[0].duration > t || |segments| == 1 then (segments[0], t)
    else InForce(segments[1..], t - segments[0].duration)
  }

  function RateAt(segments: seq<LinearSegment>, t: real): real
    requires segments != []
  {
    var (s, x) := InForce(segments, t);
    HpsAt(s, x)
  }

  // From time `start` on, `a` draws the line that `b` draws `shift` later.
  ghost predicate Follows(a: seq<LinearSegment>, b: seq<LinearSegment>, start: real, shift: real)
    requires a != [] && b != []
  {
    forall t :: t >= start ==> LineAt(a, t) == LineAt(b, shift + t)
  }

  // What is left of a schedule after `t`: the segment in force is redrawn from its rate at `t` to its rate at
  // its end.
  function Rest(segments: seq<LinearSegment>, t: real, root: Root): seq<LinearSegment>
    requires segments != []
  {
    var s := segments[0];
    if s.duration > t || |segments| == 1 then
      if s.duration - t == 0.0 then segments[1..]
      else [New(HpsAt(s, t), HpsAt(s, s.duration), s.duration - t, root)] + segments[1..]
    else Rest(segments[1..], t - s.duration, root)
  }

  // The transition leads from the old schedule's rate at `at` to the new one's rate at its own end.
  function Spliced(old_: seq<LinearSegment>, segments: seq<LinearSegment>, at: real, over: real, root: Root)
    : seq<LinearSegment>
    requires old_ != [] && segments != []
  {
    [New(RateAt(old_, at), RateAt(segments, at + over), over, root)] + Rest(segments, at + over, root)
  }

  // ---------- splicing keeps the schedule ----------

  lemma {:induction false} RestTotal(segments: seq<LinearSegment>, t: real, root: Root)
    requires segments != []
    ensures Total(Rest(segments, t, root)) == Total(segments) - t
    decreases |segments|
  {
    if segments[0].duration > t || |segments| == 1 {
      if segments[0].duration - t != 0.0 {
        assert Rest(segments, t, root)[1..] == segments[1..];
      }
    } else {
      RestTotal(segments[1..], t - segments[0].duration, root);
    }
  }

  lemma {:induction false} RestIsWellFormed(segments: seq<LinearSegment>, t: real, root: Root)
    requires segments != [] && AllWellFormed(segments) && t <= Total(segments) && Positive(root)
    ensures AllWellFormed(Rest(segments, t, root))
    decreases |segments|
  {
    var s := segments[0];
    if s.duration > t || |segments| == 1 {
      assert |segments| == 1 ==> Total(segments[1..]) == 0.0;
      NewIsWellFormed(HpsAt(s, t), HpsAt(s, s.duration), s.duration - t, root);
    } else {
      RestIsWellFormed(segments[1..], t - s.duration, root);
    }
  }

  // Where the rest starts.
  lemma {:induction false} RestStarts(segments: seq<LinearSegment>, t: real, root: Root)
    requires segments != [] && AllWellFormed(segments) && t < Total(segments)
    ensures Rest(segments, t, root) != []
    ensures Line(Rest(segments, t, root)[0], 0.0) == RateAt(segments, t)
    decreases |segments|
  {
    var s := segments[0];
    if s.duration > t || |segments| == 1 {
      assert |segments| == 1 ==> Total(segments[1..]) == 0.0;
      NewEnds(HpsAt(s, t), HpsAt(s, s.duration), s.duration - t, root);
    } else {
      RestStarts(segments[1..], t - s.duration, root);
    }
  }

  // The rates the rest of a segment is redrawn between are on its line: neither was replaced.
  predicate Unclamped(segments: seq<LinearSegment>, t: real)
    requires segments != []
  {
    var (s, x) := InForce(segments, t);
    HpsAt(s, x) == Line(s, x) && HpsAt(s, s.duration) == Line(s, s.duration)
  }

  lemma SameSlope(m: real, b: real, x: real, d: real)
    requires d != x
    ensures ((m * d + b) - (m * x + b)) / (d - x) == m
  {
    assert (m * d + b) - (m * x + b) == m * (d - x);
  }

  // Redrawing a segment between two points of its line gives the same line.
  lemma RedrawnLine(s: LinearSegment, x: real, u: real, root: Root)
    requires s.m.Some? && s.duration != x
    ensures Line(New(Line(s, x), Line(s, s.duration), s.duration - x, root), u) == Line(s, x + u)
  {
    var m := s.m.value;
    SameSlope(m, s.b, x, s.duration);
    assert m * (x + u) == m * x + m * u;
  }

  lemma {:induction false} RestFollowsLine(segments: seq<LinearSegment>, t: real, u: real, root: Root)
    requires segments != [] && AllWellFormed(segments) && 0.0 <= t < Total(segments) && u >= 0.0
    requires Unclamped(segments, t)
    ensures Rest(segments, t, root) != []
    ensures LineAt(Rest(segments, t, root), u) == LineAt(segments, t + u)
    decreases |segments|
  {
    RestStarts(segments, t, root);
    var s := segments[0];
    if s.duration > t || |segments| == 1 {
      assert |segments| == 1 ==> Total(segments[1..]) == 0.0;
      RedrawnLine(s, t, u, root);
      assert Rest(segments, t, root)[1..] == segments[1..];
    } else {
      RestFollowsLine(segments[1..], t - s.duration, u, root);
    }
  }

  // Exactly then: if the redrawn part follows the original line all the way, neither rate was replaced.
  lemma FollowsLineOnlyUnclamped(segments: seq<LinearSegment>, t: real, root: Root)
    requires segments != [] && AllWellFormed(segments) && 0.0 <= t < Total(segments)
    ensures Rest(segments, t, root) != []
    ensures Follows(Rest(segments, t, root), segments, 0.0, t) <==> Unclamped(segments, t)
  {
    RestStarts(segments, t, root);
    if Unclamped(segments, t) {
      forall u | u >= 0.0
        ensures LineAt(Rest(segments, t, root), u) == LineAt(segments, t + u)
      {
        RestFollowsLine(segments, t, u, root);
      }
      assert Follows(Rest(segments, t, root), segments, 0.0, t);
    }
    if Follows(Rest(segments, t, root), segments, 0.0, t) {
      LineFollowedIsUnclamped(segments, t, root);
    }
  }

  lemma {:induction false} LineFollowedIsUnclamped(segments: seq<LinearSegment>, t: real, root: Root)
    requires segments != [] && AllWellFormed(segments) && 0.0 <= t < Total(segments)
    requires Rest(segments, t, root) != [] && Follows(Rest(segments, t, root), segments, 0.0, t)
    ensures Unclamped(segments, t)
    decreases |segments|
  {
    var s := segments[0];
    if s.duration > t || |segments| == 1 {
      assert |segments| == 1 ==> Total(segments[1..]) == 0.0;
      var half := (s.duration - t) / 2.0;
      var redrawn := New(HpsAt(s, t), HpsAt(s, s.duration), s.duration - t, root);
      assert Rest(segments, t, root) == [redrawn] + segments[1..];
      assert LineAt(Rest(segments, t, root), 0.0) == LineAt(segments, t + 0.0);
      assert LineAt(Rest(segments, t, root), half) == LineAt(segments, t + half);
      RedrawnOnLine(s, t, HpsAt(s, t), HpsAt(s, s.duration), half, root);
    } else {
      var t' := t - s.duration;
      forall u | u >= 0.0
        ensures LineAt(Rest(segments[1..], t', root), u) == LineAt(segments[1..], t' + u)
      {
        assert LineAt(Rest(segments, t, root), u) == LineAt(segments, t + u);
      }
      assert Follows(Rest(segments[1..], t', root), segments[1..], 0.0, t');
      LineFollowedIsUnclamped(segments[1..], t', root);
    }
  }

  // A redrawn segment that meets the line at its start and half way has both ends on it.
  lemma RedrawnOnLine(s: LinearSegment, t: real, y: real, z: real, half: real, root: Root)
    requires s.m.Some? && half > 0.0 && s.duration - t == 2.0 * half
    requires var redrawn := New(y, z, s.duration - t, root);
             Line(redrawn, 0.0) == Line(s, t) && Line(redrawn, half) == Line(s, t + half)
    ensures y == Line(s, t) && z == Line(s, s.duration)
  {
    var redrawn := New(y, z, s.duration - t, root);
    NewEnds(y, z, s.duration - t, root);
    EqualInTheMiddle(redrawn.m.value, y, s.m.value, s.b, t, half);
    assert t + 2.0 * half == s.duration;
  }

  // Two lines that agree at 0 and at `h` agree at 2h.
  lemma EqualInTheMiddle(m': real, b': real, m: real, b: real, t: real, h: real)
    requires b' == m * t + b && m' * h + b' == m * (t + h) + b
    ensures m' * (2.0 * h) + b' == m * (t + 2.0 * h) + b
  {
    assert m * (t + h) == m * t + m * h;
    assert m' * h == m * h;
    assert m' * (2.0 * h) == 2.0 * (m' * h);
    assert m * (t + 2.0 * h) == m * t + 2.0 * (m * h);
  }

  // Main result: the spliced schedule lasts as long as what was left, its transition ends at the rate the
  // rest starts at, and from then on it follows the original line exactly when no rate there was replaced.
  lemma SpliceKeepsSchedule(old_: seq<LinearSegment>, segments: seq<LinearSegment>, at: real, over: real, root: Root)
    requires old_ != [] && segments != [] && AllWellFormed(segments) && Positive(root)
    requires at >= 0.0 && over > 0.0 && at + over <= Total(segments)
    ensures var spliced := Spliced(old_, segments, at, over, root);
            && AllWellFormed(spliced)
            && Total(spliced) == Total(segments) - at
            && spliced[0].duration == over
            && Line(spliced[0], 0.0) == RateAt(old_, at)
            && Line(spliced[0], over) == RateAt(segments, at + over)
            && (at + over < Total(segments) ==>
                  && |spliced| > 1 && Line(spliced[1], 0.0) == Line(spliced[0], over)
                  && (Follows(spliced, segments, over, at) <==> Unclamped(segments, at + over)))
  {
    var spliced, rest := Spliced(old_, segments, at, over, root), Rest(segments, at + over, root);
    assert spliced[1..] == rest;
    NewEnds(RateAt(old_, at), RateAt(segments, at + over), over, root);
    NewIsWellFormed(RateAt(old_, at), RateAt(segments, at + over), over, root);
    RestTotal(segments, at + over, root);
    RestIsWellFormed(segments, at + over, root);
    if at + over < Total(segments) {
      RestStarts(segments, at + over, root);
      FollowsLineOnlyUnclamped(segments, at + over, root);
      SplicedLine(spliced, rest, segments, at, over);
    }
  }

  lemma SplicedLine(
    spliced: seq<LinearSegment>, rest: seq<LinearSegment>, segments: seq<LinearSegment>, at: real, over: real)
    requires rest != [] && segments != [] && |spliced| > 1 && spliced[1..] == rest && spliced[0].duration == over
    ensures Follows(spliced, segments, over, at) <==> Follows(rest, segments, 0.0, at + over)
  {
    if Follows(spliced, segments, over, at) {
      forall u | u >= 0.0
        ensures LineAt(rest, u) == LineAt(segments, at + over + u)
      {
        assert LineAt(spliced, over + u) == LineAt(segments, at + (over + u));
        assert over + u - over == u && at + (over + u) == at + over + u;
      }
      assert Follows(rest, segments, 0.0, at + over);
    }
    if Follows(rest, segments, 0.0, at + over) {
      forall t | t >= over
        ensures LineAt(spliced, t) == LineAt(segments, at + t)
      {
        assert LineAt(rest, t - over) == LineAt(segments, at + over + (t - over));
        assert at + over + (t - over) == at + t;
      }
      assert Follows(spliced, segments, over, at);
    }
  }
}
