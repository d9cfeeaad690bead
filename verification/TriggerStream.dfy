/** The stream of trigger times drawn from a load schedule. */
module TriggerStreams {
  import opened Wrappers
  import opened Arithmetic
  import opened LinearSegments

  // Times are in seconds. `xOffset` is where the current segment starts, counted from `startTime`.
  datatype Schedule = Schedule(
    endTime: real, current: LinearSegment, segments: seq<LinearSegment>, startTime: real, xOffset: real)

  function Into(s: Schedule, time: real): real {
    time - s.startTime - s.xOffset
  }

  // At the end of the current segment the next one begins; None at the end of the last.
  function Advanced(s: Schedule, time: real): Option<Schedule> {
    if Into(s, time) < s.current.duration then Some(s)
    else if s.segments == [] then None
    else Some(s.(current := s.segments[0], segments := s.segments[1..], xOffset := s.xOffset + s.current.duration))
  }

  // How long to wait at the rate in force; at rate 0, for the segment to end.
  function WaitTime(s: Schedule, time: real): Option<real> {
    var rate := HpsAt(s.current, Into(s, time));
    if rate != 0.0 then Some(1.0 / rate)
    else if s.segments == [] then None
    else Some(s.current.duration - Into(s, time))
  }

  function NextStart(s: Schedule, time: real): (Schedule, Option<real>) {
    match Advanced(s, time)
    case None => (s, None)
    case Some(next) =>
      match WaitTime(next, time)
      case None => (next, None)
      case Some(wait) => (next, if time + wait <= s.endTime then Some(time + wait) else None)
  }

  // No duration computed on the way is negative.
  predicate Defined(s: Schedule, time: real) {
    && Into(s, time) >= 0.0
    && (Advanced(s, time).Some? ==>
          var next := Advanced(s, time).value;
          HpsAt(next.current, Into(next, time)) == 0.0 && next.segments != [] ==>
            Into(next, time) <= next.current.duration)
  }

  // ---------- the stream ----------

  class ModIntervalStreamState {
    const endTime: real
    var currentSegment: LinearSegment
    var segments: seq<LinearSegment>
    const startTime: real
    var xOffset: real
    var nextStart: real
    var followingStart: Option<real>

    ghost function Now(): Schedule
      reads this
    {
      Schedule(endTime, currentSegment, segments, startTime, xOffset)
    }

    constructor (endTime: real, current: LinearSegment, segments: seq<LinearSegment>, startTime: real, now: real)
      ensures Now() == Schedule(endTime, current, segments, startTime, 0.0)
      ensures nextStart == now && followingStart == None
    {
      this.endTime := endTime;
      this.currentSegment := current;
      this.segments := segments;
      this.startTime := startTime;
      this.xOffset := 0.0;
      this.nextStart := now;
      this.followingStart := None;
    }

    method CalculateNextStart(time: real) returns (r: Option<real>)
      requires Defined(Now(), time)
      modifies this`currentSegment, this`segments, this`xOffset
      ensures (Now(), r) == NextStart(old(Now()), time)
    {
      var waitTime := time - startTime - xOffset;
      if waitTime >= currentSegment.duration {
        if segments == [] {
          return None;
        }
        var segment := segments[0];
        segments := segments[1..];
        waitTime := waitTime - currentSegment.duration;
        xOffset := xOffset + currentSegment.duration;
        currentSegment := segment;
      }
      var targetHitsPerSecond := HpsAt(currentSegment, waitTime);
      if targetHitsPerSecond == 0.0 {
        if segments == [] {
          return None;
        } else {
          waitTime := currentSegment.duration - waitTime;
        }
      } else {
        waitTime := 1.0 / targetHitsPerSecond;
      }
      var ret := time + waitTime;
      r := if ret <= endTime then Some(ret) else None;
    }
  }

  type Item = (real, Option<real>)

  // Where a stream starts when it is first polled.
  function Begin(segments: seq<LinearSegment>, duration: real, startAt: Option<real>, now: real): Schedule
    requires segments != []
  {
    Schedule(now + duration, segments[0], segments[1..],
             now - (if startAt.Some? then startAt.value else 0.0), 0.0)
  }

  class TriggerStream {
    var state: ModIntervalStreamState?
    var segments: seq<LinearSegment>
    const duration: real
    const startAt: Option<real>

    constructor (segments: seq<LinearSegment>, duration: real, startAt: Option<real>)
      ensures state == null && this.segments == segments && this.duration == duration && this.startAt == startAt
    {
      state := null;
      this.segments := segments;
      this.duration := duration;
      this.startAt := startAt;
    }

    // The first poll sets the state up and finds the first trigger time.
    method Begun(now: real) returns (s: ModIntervalStreamState)
      requires state == null && segments != [] && Defined(Begin(segments, duration, startAt, now), now)
      modifies this`segments
      ensures fresh(s) && s.nextStart == now
      ensures (s.Now(), s.followingStart) == NextStart(Begin(old(segments), duration, startAt, now), now)
    {
      var segment, others := segments[0], segments[1..];
      segments := [];
      s := new ModIntervalStreamState(
        now + duration, segment, others, now - (if startAt.Some? then startAt.value else 0.0), now);
      var following := s.CalculateNextStart(now);
      s.followingStart := following;
    }

    // The item of one poll and how long to sleep before it is delivered.
    method Next(now: real) returns (r: Option<Item>, sleep: Option<real>)
      requires state == null && segments != [] ==>
                 var (s, f) := NextStart(Begin(segments, duration, startAt, now), now);
                 Defined(Begin(segments, duration, startAt, now), now) && (f.Some? ==> Defined(s, f.value))
      requires state != null && state.followingStart.Some? ==> Defined(state.Now(), state.followingStart.value)
      modifies this, state
      ensures old(state) == null && old(segments) == [] ==> r == None && state == null
      ensures old(state) == null && old(segments) != [] ==>
                && state != null && fresh(state)
                && var (s, f) := NextStart(Begin(old(segments), duration, startAt, now), now);
                   (r, state.Now(), state.followingStart) == Polled(s, f)
      ensures old(state) != null ==>
                && state == old(state)
                && (r, state.Now(), state.followingStart) == Polled(old(state.Now()), old(state.followingStart))
      ensures r.Some? ==> state.nextStart == r.value.0
      // the sleep makes up for the latency, and there is none when that is more than the time left
      ensures r.None? ==> sleep.None?
      ensures r.Some? ==>
                var latency := if old(state) != null && now > old(state.nextStart) then now - old(state.nextStart)
                               else 0.0;
                if sleep.Some? then sleep.value >= 0.0 && now + latency + sleep.value == r.value.0
                else now + latency > r.value.0
    {
      sleep := None;
      if state == null {
        if segments == [] {
          return None, None;
        }
        state := Begun(now);
      }
      var latency := if now > state.nextStart then now - state.nextStart else 0.0;
      if state.followingStart.None? {
        return None, None;
      }
      var nextStart := state.followingStart.value;
      state.nextStart := nextStart;
      var followingStart := state.CalculateNextStart(nextStart);
      state.followingStart := followingStart;
      sleep := if nextStart - latency >= now then Some(nextStart - latency - now) else None;
      r := Some((nextStart, followingStart));
    }
  }

  // One poll of a stream that has begun: the time due and the one after it.
  function Polled(s: Schedule, following: Option<real>): (Option<Item>, Schedule, Option<real>) {
    if following.None? then (None, s, None)
    else
      var (next, after) := NextStart(s, following.value);
      (Some((following.value, after)), next, after)
  }

  // The items of the first `n` polls.
  function Items(s: Schedule, following: Option<real>, n: nat): seq<Item>
    decreases n
  {
    if n == 0 || following.None? then []
    else
      var (next, after) := NextStart(s, following.value);
      [(following.value, after)] + Items(next, after, n - 1)
  }

  // ---------- every run ----------

  // Between one trigger and the next, at most one segment ends.
  predicate NoJump(s: Schedule, time: real) {
    Advanced(s, time).Some? ==>
      var next := Advanced(s, time).value; Into(next, time) < next.current.duration
  }

  predicate NeverJumps(s: Schedule, following: Option<real>, n: nat)
    decreases n
  {
    n > 0 && following.Some? ==>
      && NoJump(s, following.value)
      && var (next, after) := NextStart(s, following.value); NeverJumps(next, after, n - 1)
  }

  predicate ScheduleOk(s: Schedule) {
    WellFormed(s.current) && AllWellFormed(s.segments)
  }

  // An upper bound of all rates.
  ghost predicate Below(s: LinearSegment, peak: real) {
    && Line(s, 0.0) <= peak && Line(s, s.duration) <= peak
    && (s.minY.Some? ==> s.minY.value <= peak)
  }

  ghost predicate AllBelow(s: Schedule, peak: real) {
    && peak >= 0.0 && Below(s.current, peak)
    && forall k :: 0 <= k < |s.segments| ==> Below(s.segments[k], peak)
  }

  // A segment that has ended with another to come is not waited for again.
  function Ended(s: Schedule, time: real): int {
    if Into(s, time) >= s.current.duration && s.segments != [] then 1 else 0
  }

  // How many triggers there can still be.
  function Budget(s: Schedule, time: real, peak: real): real {
    (s.endTime - time) * peak + (|s.segments| - Ended(s, time)) as real
  }

  function Unended(s: Schedule, time: real, peak: real): real {
    (s.endTime - time) * peak + |s.segments| as real
  }

  lemma Reciprocal(x: real)
    requires x > 0.0
    ensures 1.0 / x > 0.0 && 1.0 / x * x == 1.0
  {
  }

  lemma Distribute(a: real, b: real, c: real)
    ensures (a - b) * c == a * c - b * c
  {
  }

  lemma RateTimesWait(rate: real, wait: real, peak: real, left: real)
    requires 0.0 < rate <= peak && wait > 0.0 && wait * rate == 1.0
    ensures (left - wait) * peak <= left * peak - 1.0
  {
    AtMostTimes(rate, peak, wait);
    assert wait * peak >= 1.0;
    Distribute(left, wait, peak);
  }

  lemma AdvancedKeeps(s: Schedule, time: real, peak: real)
    requires ScheduleOk(s) && AllBelow(s, peak) && Into(s, time) >= 0.0 && Advanced(s, time).Some?
    ensures var next := Advanced(s, time).value;
            && ScheduleOk(next) && AllBelow(next, peak)
            && Into(next, time) >= 0.0 && next.endTime == s.endTime
            && Unended(next, time, peak) == Budget(s, time, peak)
  {
    assert |Advanced(s, time).value.segments| == |s.segments| - Ended(s, time);
  }

  lemma OneLessToCome(next: Schedule, time: real, start: real, peak: real, before: real, after: real)
    requires before == (next.endTime - time) * peak && after == (next.endTime - start) * peak
    requires after <= before - 1.0
    ensures Budget(next, start, peak) <= Unended(next, time, peak) - 1.0
  {
  }

  // The wait at a positive rate, and at rate 0 with a segment to come.
  lemma RateTriggers(next: Schedule, time: real, peak: real)
    requires ScheduleOk(next) && AllBelow(next, peak) && 0.0 <= Into(next, time) < next.current.duration
    requires HpsAt(next.current, Into(next, time)) != 0.0
    ensures var start := time + 1.0 / HpsAt(next.current, Into(next, time));
            && time < start && Into(next, start) >= 0.0
            && Budget(next, start, peak) <= Unended(next, time, peak) - 1.0
  {
    var rate, left := HpsAt(next.current, Into(next, time)), next.endTime - time;
    RatesAreBounded(next.current, Into(next, time), peak);
    var wait := 1.0 / rate;
    Reciprocal(rate);
    RateTimesWait(rate, wait, peak, left);
    assert next.endTime - (time + wait) == left - wait;
    OneLessToCome(next, time, time + wait, peak, left * peak, (left - wait) * peak);
  }

  lemma EndTriggers(next: Schedule, time: real, peak: real)
    requires peak >= 0.0 && 0.0 <= Into(next, time) < next.current.duration && next.segments != []
    ensures var start := time + (next.current.duration - Into(next, time));
            && time < start && Into(next, start) >= 0.0
            && Budget(next, start, peak) <= Unended(next, time, peak) - 1.0
  {
    var start := time + (next.current.duration - Into(next, time));
    AtMostTimes(next.endTime - start, next.endTime - time, peak);
    assert Into(next, start) == next.current.duration;
    assert Ended(next, start) == 1;
  }

  // One trigger: later than the last, not after the end, and one less to come.
  lemma TriggerAdvances(s: Schedule, time: real, peak: real)
    requires ScheduleOk(s) && AllBelow(s, peak) && Into(s, time) >= 0.0 && NoJump(s, time)
    ensures Defined(s, time)
    ensures var (next, start) := NextStart(s, time);
            && next.endTime == s.endTime
            && (start.Some? ==>
                  && ScheduleOk(next) && AllBelow(next, peak) && Into(next, start.value) >= 0.0
                  && time < start.value <= s.endTime
                  && Budget(next, start.value, peak) <= Budget(s, time, peak) - 1.0)
  {
    if Advanced(s, time).Some? {
      AdvancedKeeps(s, time, peak);
      WaitAdvances(Advanced(s, time).value, time, peak);
    }
  }

  lemma WaitAdvances(next: Schedule, time: real, peak: real)
    requires ScheduleOk(next) && AllBelow(next, peak) && 0.0 <= Into(next, time) < next.current.duration
    ensures WaitTime(next, time).Some? ==>
              var start := time + WaitTime(next, time).value;
              && time < start && Into(next, start) >= 0.0
              && Budget(next, start, peak) <= Unended(next, time, peak) - 1.0
  {
    if HpsAt(next.current, Into(next, time)) != 0.0 {
      RateTriggers(next, time, peak);
    } else if next.segments != [] {
      EndTriggers(next, time, peak);
    }
  }

  lemma BudgetIsNatural(s: Schedule, time: real, peak: real)
    requires time <= s.endTime && peak >= 0.0
    ensures Budget(s, time, peak) >= 0.0
  {
    AtMostTimes(0.0, s.endTime - time, peak);
  }

  ghost predicate Chained(items: seq<Item>) {
    forall k :: 0 <= k < |items| - 1 ==> items[k].1 == Some(items[k + 1].0)
  }

  ghost predicate Increasing(items: seq<Item>) {
    forall j, k :: 0 <= j < k < |items| ==> items[j].0 < items[k].0
  }

  ghost predicate Within(items: seq<Item>, after: real, end: real) {
    forall k :: 0 <= k < |items| ==> after < items[k].0 <= end
  }

  lemma {:induction false} ItemsFrom(s: Schedule, time: real, n: nat, peak: real)
    requires ScheduleOk(s) && AllBelow(s, peak) && Into(s, time) >= 0.0 && time <= s.endTime
    requires NoJump(s, time)
    requires var (next, first) := NextStart(s, time); NeverJumps(next, first, n)
    ensures var (next, first) := NextStart(s, time);
            var items := Items(next, first, n);
            && Chained(items) && Increasing(items) && Within(items, time, s.endTime)
            && |items| as real <= Budget(s, time, peak)
            && (items != [] ==> first == Some(items[0].0))
    decreases n
  {
    TriggerAdvances(s, time, peak);
    BudgetIsNatural(s, time, peak);
    var (next, first) := NextStart(s, time);
    if n > 0 && first.Some? {
      ItemsFrom(next, first.value, n - 1, peak);
      var (second, after) := NextStart(next, first.value);
      var others := Items(second, after, n - 1);
      assert Items(next, first, n) == [(first.value, after)] + others;
      PrependItem(first.value, after, others, time, s.endTime);
    }
  }

  lemma PrependItem(first: real, after: Option<real>, others: seq<Item>, time: real, end: real)
    requires Chained(others) && Increasing(others) && Within(others, first, end)
    requires others != [] ==> after == Some(others[0].0)
    requires time < first <= end
    ensures var items := [(first, after)] + others;
            Chained(items) && Increasing(items) && Within(items, time, end)
  {
  }

  // A stream that starts `offset` into its schedule looks its first rate up there: from `now` to the first trigger
  // that rate yields one hit, unless the trigger would come after the schedule's duration.
  lemma FirstTrigger(segments: seq<LinearSegment>, duration: real, startAt: Option<real>, now: real)
    requires segments != []
    ensures var offset := if startAt.Some? then startAt.value else 0.0;
            var (_, first) := NextStart(Begin(segments, duration, startAt, now), now);
            offset < segments[0].duration && HpsAt(segments[0], offset) > 0.0 ==>
              && (first.Some? <==> duration * HpsAt(segments[0], offset) >= 1.0)
              && (first.Some? ==> (first.value - now) * HpsAt(segments[0], offset) == 1.0)
  {
    var offset := if startAt.Some? then startAt.value else 0.0;
    var s := Begin(segments, duration, startAt, now);
    assert Into(s, now) == offset;
    if HpsAt(segments[0], offset) > 0.0 {
      OneHit(HpsAt(segments[0], offset), now, now + duration);
      assert now + duration - now == duration;
    }
  }

  // One that starts after the first segment looks its first rate up in the second.
  lemma FirstTriggerLater(segments: seq<LinearSegment>, duration: real, startAt: real, now: real)
    requires |segments| > 1 && startAt >= segments[0].duration
    ensures var into := startAt - segments[0].duration;
            var (s, first) := NextStart(Begin(segments, duration, Some(startAt), now), now);
            && s.current == segments[1] && Into(s, now) == into
            && (HpsAt(segments[1], into) > 0.0 ==>
                  && (first.Some? <==> duration * HpsAt(segments[1], into) >= 1.0)
                  && (first.Some? ==> (first.value - now) * HpsAt(segments[1], into) == 1.0))
  {
    var into := startAt - segments[0].duration;
    var s := Begin(segments, duration, Some(startAt), now);
    assert Into(s, now) == startAt;
    if HpsAt(segments[1], into) > 0.0 {
      OneHit(HpsAt(segments[1], into), now, now + duration);
      assert now + duration - now == duration;
    }
  }

  // Main result: from the first poll on, each item's following time is the next item's time, times strictly
  // increase and stay within the schedule's duration, and there are at most as many as the duration at peak
  // rate gives, plus one for every segment but the first -- whatever number of polls.
  lemma TriggersOfAStream(
    segments: seq<LinearSegment>, duration: real, startAt: Option<real>, now: real, n: nat, peak: real)
    requires segments != [] && AllWellFormed(segments) && duration >= 0.0
    requires startAt.Some? ==> startAt.value >= 0.0
    requires peak >= 0.0 && forall k :: 0 <= k < |segments| ==> Below(segments[k], peak)
    requires var s := Begin(segments, duration, startAt, now);
             var (next, first) := NextStart(s, now);
             NoJump(s, now) && NeverJumps(next, first, n)
    ensures var s := Begin(segments, duration, startAt, now);
            var (next, first) := NextStart(s, now);
            var items := Items(next, first, n);
            && Defined(s, now)
            && Chained(items) && Increasing(items) && Within(items, now, now + duration)
            && |items| as real <= duration * peak + (|segments| - 1) as real
  {
    var s := Begin(segments, duration, startAt, now);
    BeginIsFine(segments, duration, startAt, now, peak);
    TriggerAdvances(s, now, peak);
    ItemsFrom(s, now, n, peak);
  }

  lemma BeginIsFine(segments: seq<LinearSegment>, duration: real, startAt: Option<real>, now: real, peak: real)
    requires segments != [] && AllWellFormed(segments) && duration >= 0.0
    requires startAt.Some? ==> startAt.value >= 0.0
    requires peak >= 0.0 && forall k :: 0 <= k < |segments| ==> Below(segments[k], peak)
    ensures var s := Begin(segments, duration, startAt, now);
            && ScheduleOk(s) && AllBelow(s, peak) && Into(s, now) >= 0.0 && s.endTime == now + duration
            && Budget(s, now, peak) <= duration * peak + (|segments| - 1) as real
  {
    assert now + duration - now == duration;
  }

  // What a trigger time means: from one to the next the rate in force yields exactly one hit, or, at rate 0,
  // the segment ends; and there is none exactly when nothing is left or it would come after the end.
  lemma TriggerMeans(s: Schedule, time: real)
    requires ScheduleOk(s) && Into(s, time) >= 0.0 && NoJump(s, time)
    ensures var (next, start) := NextStart(s, time);
            var rate := HpsAt(next.current, Into(next, time));
            match start
            case Some(t) =>
              && t <= s.endTime
              && (if rate > 0.0 then (t - time) * rate == 1.0 else Into(next, t) == next.current.duration)
            case None =>
              || (s.segments == [] && Into(s, time) >= s.current.duration)
              || (rate == 0.0 && (next.segments == [] || time + (next.current.duration - Into(next, time)) > s.endTime))
              || (rate > 0.0 && (s.endTime - time) * rate < 1.0)
  {
    if Advanced(s, time).Some? {
      var next := Advanced(s, time).value;
      RatesAreNatural(next.current, Into(next, time));
      var rate := HpsAt(next.current, Into(next, time));
      if rate > 0.0 {
        OneHit(rate, time, s.endTime);
      }
    }
  }

  lemma OneHit(rate: real, time: real, end: real)
    requires rate > 0.0
    ensures (time + 1.0 / rate - time) * rate == 1.0
    ensures time + 1.0 / rate <= end <==> (end - time) * rate >= 1.0
  {
    var wait := 1.0 / rate;
    Reciprocal(rate);
    assert time + wait - time == wait;
    if wait <= end - time {
      AtMostTimes(wait, end - time, rate);
    } else {
      Distribute(wait, end - time, rate);
      PositiveProduct(wait - (end - time), rate);
    }
  }

  lemma PositiveProduct(a: real, b: real)
    requires a > 0.0 && b > 0.0
    ensures a * b > 0.0
  {
  }

  // ---------- schedules that cannot be jumped ----------

  // Every wait a segment can ask for is no longer than any segment.
  ghost predicate Brisk(s: Schedule, d: real) {
    && BriskSegment(s.current, d)
    && forall k :: 0 <= k < |s.segments| ==> BriskSegment(s.segments[k], d)
  }

  ghost predicate BriskSegment(s: LinearSegment, d: real) {
    && s.duration >= d > 0.0
    && forall x :: 0.0 <= x < s.duration ==> HpsAt(s, x) == 0.0 || HpsAt(s, x) * d >= 1.0
  }

  lemma WaitAtMost(rate: real, d: real)
    requires rate > 0.0 && rate * d >= 1.0
    ensures 1.0 / rate <= d
  {
    Reciprocal(rate);
    AtMostTimes(1.0, rate * d, 1.0 / rate);
    assert rate * d * (1.0 / rate) == d;
  }

  lemma RatesAreNatural(s: LinearSegment, x: real)
    requires WellFormed(s) && 0.0 <= x < s.duration
    ensures HpsAt(s, x) >= 0.0
  {
  }

  lemma BriskStep(s: Schedule, time: real, d: real)
    requires ScheduleOk(s) && Brisk(s, d) && 0.0 <= Into(s, time) < s.current.duration + d
    ensures NoJump(s, time)
    ensures var (next, start) := NextStart(s, time);
            && ScheduleOk(next) && Brisk(next, d)
            && (start.Some? ==> 0.0 <= Into(next, start.value) < next.current.duration + d)
  {
    if Advanced(s, time).Some? {
      BriskWait(Advanced(s, time).value, time, d);
    }
  }

  lemma BriskWait(next: Schedule, time: real, d: real)
    requires ScheduleOk(next) && Brisk(next, d) && 0.0 <= Into(next, time) < next.current.duration
    ensures WaitTime(next, time).Some? ==>
              0.0 <= Into(next, time + WaitTime(next, time).value) < next.current.duration + d
  {
    var x := Into(next, time);
    RatesAreNatural(next.current, x);
    if HpsAt(next.current, x) != 0.0 {
      Reciprocal(HpsAt(next.current, x));
      WaitAtMost(HpsAt(next.current, x), d);
    }
  }

  lemma {:induction false} BriskNeverJumps(s: Schedule, following: Option<real>, n: nat, d: real)
    requires ScheduleOk(s) && Brisk(s, d)
    requires following.Some? ==> 0.0 <= Into(s, following.value) && Into(s, following.value) < s.current.duration + d
    ensures NeverJumps(s, following, n)
    decreases n
  {
    if n > 0 && following.Some? {
      var time := following.value;
      var (next, after) := NextStart(s, time);
      BriskStep(s, time, d);
      BriskNeverJumps(next, after, n - 1, d);
    }
  }

  function EndOfCurrent(s: Schedule): real {
    s.startTime + s.xOffset + s.current.duration
  }

  // Exactly when a duration is computed to be negative: the time lies past the end of the segment after the
  // current one, that one is flat and promises less than one hit, and another follows it.
  lemma UnderflowsExactly(s: Schedule, time: real, startHps: real, endHps: real, duration: real, root: Root)
    requires Into(s, time) >= 0.0 && duration > 0.0 && Positive(root)
    requires s.segments != [] ==> s.segments[0] == New(startHps, endHps, duration, root)
    ensures !Defined(s, time)
            <==> && |s.segments| >= 2 && time > EndOfCurrent(s) + duration
                 && startHps == endHps && startHps * duration < 1.0
  {
    if s.segments != [] {
      NoRate(startHps, endHps, duration, time - EndOfCurrent(s), root);
    }
  }

  lemma NoRate(startHps: real, endHps: real, duration: real, x: real, root: Root)
    requires duration > 0.0 && Positive(root)
    ensures HpsAt(New(startHps, endHps, duration, root), x) == 0.0
            <==> startHps == endHps && startHps * duration < 1.0
  {
    RateMeans(startHps, endHps, duration, x, root);
    var s := New(startHps, endHps, duration, root);
    if startHps == endHps {
      assert s.m == Some(0.0);
      assert Line(s, x) == startHps;
      var hits := Line(s, x) * duration;
      assert hits == startHps * duration;
      if hits < 1.0 {
        assert HpsAt(s, x) == 0.0;
      } else {
        assert HpsAt(s, x) > 0.0;
      }
    } else {
      assert Line(s, x) * duration < 1.0 ==> HpsAt(s, x) != 0.0;
    }
  }

  // A wait that jumps a whole segment: 15 s at one hit in 10 s, then 2 s at rate 0, then more. The trigger at
  // 20 s lies 3 s past the end of the second segment, and the time left in it is computed as negative.
  lemma JumpedSegmentUnderflows(root: Root)
    ensures var segments := [New(0.1, 0.1, 15.0, root), New(0.0, 0.0, 2.0, root), New(1.0, 1.0, 10.0, root)];
            var s := Begin(segments, 27.0, None, 0.0);
            && NextStart(s, 0.0) == (s, Some(10.0))
            && NextStart(s, 10.0) == (s, Some(20.0))
            && !NoJump(s, 20.0) && !Defined(s, 20.0)
  {
    var a, b, c := New(0.1, 0.1, 15.0, root), New(0.0, 0.0, 2.0, root), New(1.0, 1.0, 10.0, root);
    assert [a, b, c][1..] == [b, c];
    assert a.m == Some(0.0) && HpsAt(a, 0.0) == 0.1 && HpsAt(a, 10.0) == 0.1;
    assert b.m == Some(0.0) && HpsAt(b, 5.0) == 0.0;
  }
}
