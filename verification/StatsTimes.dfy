/** When buckets begin, how long the test is taken to last, and what the stats file starts with. */
module StatsTimes {
  import opened Wrappers
  import opened StatsBuckets
  import opened StatsRuns

  // The times of the buckets written, and then that of the current one.
  function BucketTimes(s: State): seq<nat> {
    TimesOf(BucketLines(s.file)) + [s.current.time]
  }

  function TimesOf(buckets: seq<TimeBucket>): (r: seq<nat>)
    ensures |r| == |buckets|
    ensures forall k :: 0 <= k < |r| ==> r[k] == buckets[k].time
  {
    seq(|buckets|, k requires 0 <= k < |buckets| => buckets[k].time)
  }

  ghost predicate Consecutive(times: seq<nat>, first: nat, bucketSize: nat) {
    && times != [] && times[0] == first
    && forall k :: 0 <= k < |times| - 1 ==> times[k + 1] == times[k] + bucketSize
  }

  // A message that ends nothing: a tick makes the next bucket the current one exactly if its time has come, and
  // nothing else touches the buckets.
  ghost predicate MovesOn(s: State, item: Item, now: nat, after: State) {
    && after.bucketSize == s.bucketSize
    && BucketTimes(after) ==
         (if item.NewBucket? && now >= s.current.time + s.bucketSize
          then BucketTimes(s) + [s.current.time + s.bucketSize] else BucketTimes(s))
    && (item.NewBucket? && now >= s.current.time ==> after.current.time <= now < after.current.time + s.bucketSize)
  }

  lemma TickMovesOn(s: State, item: Item, now: nat)
    requires Inv(s) && !Ends(s, item) && Step(s, item, now).Ok?
    ensures MovesOn(s, item, now, Step(s, item, now).value)
  {
    match item
    case NewBucket(_) => ClosingMovesOn(s, item, now);
    case Start(given, elapsed) =>
      LinesAfter(s.file, HeaderLine);
      assert BucketLines(s.file) + [] == BucketLines(s.file);
    case Stat(stat) => TagsAfterAppend(s.tags, s.file, stat.tags);
  }

  lemma ClosingMovesOn(s: State, item: Item, now: nat)
    requires Inv(s) && item.NewBucket? && CloseOut(s, false, now).Ok?
    ensures MovesOn(s, item, now, CloseOut(s, false, now).value)
  {
    RoundIsStartOfBucket(now, s.bucketSize);
    NextHasCome(s.current.time, now, s.bucketSize);
    TimesAfter(s.file, s.current);
  }

  lemma TimesAfter(file: seq<FileMessage>, bucket: TimeBucket)
    ensures TimesOf(BucketLines(file + [BucketLine(bucket)])) == TimesOf(BucketLines(file)) + [bucket.time]
  {
    LinesAfter(file, BucketLine(bucket));
  }

  lemma NextHasCome(current: nat, time: nat, bucketSize: nat)
    requires bucketSize > 0 && current % bucketSize == 0
    ensures current < RoundTime(time, bucketSize) <==> time >= current + bucketSize
  {
    RoundIsStartOfBucket(time, bucketSize);
    var p, q := current / bucketSize, time / bucketSize;
    assert current == p * bucketSize;
    if q <= p {
      MultipleOrder(q, p, bucketSize);
    } else {
      MultipleOrder(p + 1, q, bucketSize);
    }
  }

  // Main result: as long as no message is taken for the end of the test, the buckets written and the current one
  // follow each other without a gap, from the one the receiver was started in.
  lemma {:induction false} BucketsFollowEachOther(states: seq<State>, items: seq<(Item, nat)>, n: nat)
    requires IsRun(states, items) && n <= |items| && forall k :: 0 <= k < n ==> !EndsAt(items, k)
    ensures states[n].bucketSize == states[0].bucketSize
    ensures Consecutive(BucketTimes(states[n]), RoundTime(states[0].totals.time, states[0].bucketSize),
                        states[0].bucketSize)
  {
    if n > 0 {
      var k := n - 1;
      BucketsFollowEachOther(states, items, k);
      RunKeepsTotals(states, items, k);
      assert !EndsAt(items, k);
      RunMovesOn(states[k], items[k].0, items[k].1, states[n], RoundTime(states[0].totals.time, states[0].bucketSize));
    }
  }

  lemma RunMovesOn(s: State, item: Item, now: nat, after: State, first: nat)
    requires Inv(s) && !Ends(s, item) && StepsTo(s, item, now, after)
    requires Consecutive(BucketTimes(s), first, s.bucketSize)
    ensures after.bucketSize == s.bucketSize && Consecutive(BucketTimes(after), first, s.bucketSize)
  {
    TickMovesOn(s, item, now);
  }

  // The first start sets the duration, to the second; a later one leaves the test's end where it is to within a second.
  lemma DurationMeans(s: State, given: nat, elapsed: nat)
    ensures var after := StartTest(s, given, elapsed);
            && after.started
            && (!s.started ==> after.duration * SECOND <= given < after.duration * SECOND + SECOND)
            && (s.started ==> after.duration * SECOND - SECOND < elapsed + given < after.duration * SECOND + SECOND)
  {
  }

  function HeaderLines(file: seq<FileMessage>): nat {
    if file == [] then 0
    else HeaderLines(file[..|file| - 1]) + (if file[|file| - 1].HeaderLine? then 1 else 0)
  }

  lemma HeadersAfter(file: seq<FileMessage>, m: FileMessage)
    ensures HeaderLines(file + [m]) == HeaderLines(file) + (if m.HeaderLine? then 1 else 0)
  {
    assert (file + [m])[..|file|] == file;
  }

  // The file gets its header with the first start, and only once.
  lemma {:induction false} OneHeader(states: seq<State>, items: seq<(Item, nat)>, n: nat)
    requires IsRun(states, items) && n <= |items|
    ensures HeaderLines(states[n].file) == if StartedBefore(items, n) then 1 else 0
  {
    if n > 0 {
      OneHeader(states, items, n - 1);
      StartedIs(states, items, n - 1);
      RunWritesHeader(states[n - 1], items[n - 1].0, items[n - 1].1, states[n]);
    }
  }

  lemma StartedIs(states: seq<State>, items: seq<(Item, nat)>, n: nat)
    requires IsRun(states, items) && n <= |items|
    ensures states[n].started <==> StartedBefore(items, n)
  {
    RunKeepsTotals(states, items, n);
  }

  lemma RunWritesHeader(s: State, item: Item, now: nat, after: State)
    requires s.bucketSize > 0 && StepsTo(s, item, now, after)
    ensures HeaderLines(after.file) == HeaderLines(s.file) + (if item.Start? && !s.started then 1 else 0)
  {
    StepWritesHeader(s, item, now);
  }

  lemma StepWritesHeader(s: State, item: Item, now: nat)
    requires s.bucketSize > 0 && Step(s, item, now).Ok?
    ensures HeaderLines(Step(s, item, now).value.file)
         == HeaderLines(s.file) + (if item.Start? && !s.started then 1 else 0)
  {
    HeadersAfter(s.file, HeaderLine);
    HeadersAfter(s.file, BucketLine(s.current));
    if s.previous.Some? {
      HeadersAfter(s.file, BucketLine(s.previous.value));
    }
    if item.Stat? {
      HeadersAfter(s.file, TagsLine(IndexOf(s, item.stat.tags), item.stat.tags));
    }
  }
}
