/**
 The statistics receiver as a state machine: what each message does to the buckets, the tags and the stats
 file, and what holds over every run.
 */
module StatsRuns {
  import opened Wrappers
  import opened Arithmetic
  import opened StatsBuckets

  datatype FileMessage = HeaderLine | TagsLine(index: nat, tags: Tags) | BucketLine(bucket: TimeBucket)

  // What ends the receiver: its two assertions, and an unsigned subtraction below 0 where overflow is checked.
  datatype Panic = UnexpectedTime | LeftOver | Underflow

  const SECOND := 1_000_000_000

  /*
   Times are in seconds. `checks` says whether overflow is checked; without, a difference below 0 wraps round,
   which shows in what is printed only. `duration` is that of the test. `finals` are the totals printed so far.
   The last three fields are history: the stats of the current bucket, of each bucket closed out, and all of
   them in the order they came, with the index of their tags.
   */
  datatype State = State(
    bucketSize: nat, checks: bool, duration: nat, current: TimeBucket, previous: Option<TimeBucket>,
    tags: map<Tags, nat>, totals: TimeBucket, file: seq<FileMessage>, started: bool, finals: seq<TimeBucket>,
    open: seq<Indexed>, closed: seq<seq<Indexed>>, appended: seq<Indexed>)

  // The time since the start of the test and the duration a start gives are in nanoseconds.
  datatype Item = TestComplete | NewBucket(elapsed: nat) | Start(given: nat, elapsed: nat) | Stat(stat: ResponseStat)

  function RoundTime(time: nat, bucketSize: nat): nat
    requires bucketSize > 0
  {
    time / bucketSize * bucketSize
  }

  lemma RoundIsStartOfBucket(time: nat, bucketSize: nat)
    requires bucketSize > 0
    ensures RoundTime(time, bucketSize) <= time < RoundTime(time, bucketSize) + bucketSize
    ensures RoundTime(time, bucketSize) % bucketSize == 0
  {
    RemainderIs(RoundTime(time, bucketSize), bucketSize, time / bucketSize, 0);
  }

  // When the bucket of a later time is not the next one.
  lemma BucketIsSkipped(current: nat, time: nat, bucketSize: nat)
    requires bucketSize > 0 && current % bucketSize == 0
    ensures var round := RoundTime(time, bucketSize);
            (current < round && round != current + bucketSize) <==> time >= current + 2 * bucketSize
  {
    RoundIsStartOfBucket(time, bucketSize);
    var p, q := current / bucketSize, time / bucketSize;
    assert current == p * bucketSize;
    if q <= p {
      MultipleOrder(q, p, bucketSize);
    } else if q >= p + 2 {
      MultipleOrder(p + 2, q, bucketSize);
    } else {
      MultipleOrder(p + 1, q, bucketSize);
      MultipleOrder(q, p + 1, bucketSize);
    }
  }

  lemma MultipleOrder(p: nat, q: nat, bucketSize: nat)
    requires p <= q
    ensures p * bucketSize <= q * bucketSize
  {
  }

  function Initial(bucketSize: nat, checks: bool, now: nat): State
    requires bucketSize > 0
  {
    State(bucketSize, checks, 0, TimeBucket(RoundTime(now, bucketSize), map[]), None, map[], TimeBucket(now, map[]), [],
          false, [], [], [], [])
  }

  // The totals keep the time they are opened at.
  predicate IsInitial(s: State) {
    s.bucketSize > 0 && s == Initial(s.bucketSize, s.checks, s.totals.time)
  }

  function CombinedTotals(s: State): TimeBucket {
    TimeBucket(s.totals.time, CombineEntries(s.totals.entries, s.current.entries))
  }

  // If the current bucket's time has elapsed a new one takes its place.
  function CheckCurrent(s: State, now: nat): Result<State, Panic>
    requires s.bucketSize > 0
  {
    var time := RoundTime(now, s.bucketSize);
    if s.current.time < time then
      if s.current.time != time - s.bucketSize then Err(UnexpectedTime)
      else if s.previous.Some? then Err(LeftOver)
      else Ok(s.(current := TimeBucket(time, map[]), totals := CombinedTotals(s), previous := Some(s.current),
                 open := [], closed := s.closed + [s.open]))
    else Ok(s)
  }

  // At the end of the test the current bucket is the last.
  function TakeCurrent(s: State): State {
    s.(current := TimeBucket(0, map[]), totals := CombinedTotals(s), open := [], closed := s.closed + [s.open])
  }

  function GetPrevious(s: State, testComplete: bool, now: nat): Result<(State, Option<TimeBucket>), Panic>
    requires s.bucketSize > 0
  {
    if testComplete then Ok((TakeCurrent(s), Some(s.current)))
    else if s.previous.Some? then Ok((s.(previous := None), s.previous))
    else
      var checked :- CheckCurrent(s, now);
      Ok((checked.(previous := None), checked.previous))
  }

  // A bucket that is complete is written; at the end of the test the totals are printed and blanked.
  function CloseOut(s: State, testComplete: bool, now: nat): Result<State, Panic>
    requires s.bucketSize > 0
  {
    if s.checks && RoundTime(now, s.bucketSize) < s.bucketSize then Err(Underflow) else
    var (s, bucket) :- GetPrevious(s, testComplete, now);
    var s := if bucket.Some? then s.(file := s.file + [BucketLine(bucket.value)]) else s;
    Ok(if testComplete then s.(totals := TimeBucket(0, map[]), finals := s.finals + [s.totals]) else s)
  }

  function IndexOf(s: State, tags: Tags): nat {
    if tags in s.tags then s.tags[tags] else |s.tags|
  }

  function AppendStat(s: State, stat: ResponseStat): State {
    var i := IndexOf(s, stat.tags);
    s.(tags := s.tags[stat.tags := i],
       current := TimeBucket(s.current.time, AppendAt(s.current.entries, stat, i)),
       file := if stat.tags in s.tags then s.file else s.file + [TagsLine(i, stat.tags)],
       open := s.open + [(stat, i)], appended := s.appended + [(stat, i)])
  }

  // The first start gives the duration; a later one changes it by a second or more or not at all.
  function StartTest(s: State, given: nat, elapsed: nat): State {
    if !s.started then s.(started := true, duration := given / SECOND, file := s.file + [HeaderLine])
    else
      var ends := elapsed + given;
      if s.duration * SECOND - SECOND < ends < s.duration * SECOND + SECOND then s
      else s.(duration := ends / SECOND)
  }

  // One message. A tick that comes before the start of the test is treated as its end.
  function Step(s: State, item: Item, now: nat): Result<State, Panic>
    requires s.bucketSize > 0
  {
    match item
    case TestComplete => CloseOut(s, true, now)
    case NewBucket(elapsed) =>
      if s.started && s.checks && elapsed / SECOND > s.duration then Err(Underflow)
      else CloseOut(s, !s.started, now)
    case Start(given, elapsed) => Ok(StartTest(s, given, elapsed))
    case Stat(stat) => Ok(AppendStat(s, stat))
  }

  // ---------- what every step keeps ----------

  function Flatten(parts: seq<seq<Indexed>>): seq<Indexed> {
    if parts == [] then [] else Flatten(parts[..|parts| - 1]) + parts[|parts| - 1]
  }

  // The tags introduced by the file, in order.
  function TagLines(file: seq<FileMessage>): seq<(nat, Tags)> {
    if file == [] then []
    else
      var last := file[|file| - 1];
      TagLines(file[..|file| - 1]) + (if last.TagsLine? then [(last.index, last.tags)] else [])
  }

  function BucketLines(file: seq<FileMessage>): seq<TimeBucket> {
    if file == [] then []
    else
      var last := file[|file| - 1];
      BucketLines(file[..|file| - 1]) + (if last.BucketLine? then [last.bucket] else [])
  }

  // The tags of the file are all new where they come, and numbered from 0.
  predicate Numbered(lines: seq<(nat, Tags)>) {
    lines != [] ==>
      var n := |lines| - 1;
      lines[n].0 == n && lines[n].1 !in IndexMap(lines[..n]) && Numbered(lines[..n])
  }

  function IndexMap(lines: seq<(nat, Tags)>): map<Tags, nat> {
    if lines == [] then map[] else IndexMap(lines[..|lines| - 1])[lines[|lines| - 1].1 := |lines| - 1]
  }

  ghost predicate TagsInOrder(tags: map<Tags, nat>, lines: seq<(nat, Tags)>) {
    Numbered(lines) && tags == IndexMap(lines)
  }

  // The k-th bucket written is the aggregate of the k-th part.
  ghost predicate WrittenAre(buckets: seq<TimeBucket>, parts: seq<seq<Indexed>>) {
    |buckets| == |parts| && forall k :: 0 <= k < |parts| ==> buckets[k].entries == Aggregate(parts[k])
  }

  // Every stat stands under the index of its tags.
  ghost predicate Placed(stats: seq<Indexed>, tags: map<Tags, nat>) {
    forall k :: 0 <= k < |stats| ==> stats[k].0.tags in tags && tags[stats[k].0.tags] == stats[k].1
  }

  ghost predicate Parts(closed: seq<seq<Indexed>>, open: seq<Indexed>, appended: seq<Indexed>) {
    appended == Flatten(closed) + open
  }

  ghost predicate Inv(s: State) {
    && s.bucketSize > 0 && s.previous.None? && s.current.time % s.bucketSize == 0
    && TagsInOrder(s.tags, TagLines(s.file))
    && Parts(s.closed, s.open, s.appended)
    && s.current.entries == Aggregate(s.open)
    && WrittenAre(BucketLines(s.file), s.closed)
    && Placed(s.appended, s.tags)
  }

  // The totals are those of the closed buckets but for the first `cut` stats.
  ghost predicate Kept(s: State, cut: nat) {
    cut <= |Flatten(s.closed)| && s.totals.entries == Aggregate(Flatten(s.closed)[cut..])
  }

  lemma InitialHolds(bucketSize: nat, checks: bool, now: nat)
    requires bucketSize > 0
    ensures Inv(Initial(bucketSize, checks, now)) && Kept(Initial(bucketSize, checks, now), 0)
  {
    RoundIsStartOfBucket(now, bucketSize);
  }

  lemma FlattenAppend(parts: seq<seq<Indexed>>, part: seq<Indexed>)
    ensures Flatten(parts + [part]) == Flatten(parts) + part
  {
    assert (parts + [part])[..|parts|] == parts;
  }

  lemma LinesAfter(file: seq<FileMessage>, m: FileMessage)
    ensures TagLines(file + [m]) == TagLines(file) + (if m.TagsLine? then [(m.index, m.tags)] else [])
    ensures BucketLines(file + [m]) == BucketLines(file) + (if m.BucketLine? then [m.bucket] else [])
  {
    assert (file + [m])[..|file|] == file;
  }

  // Indexes are dense, and no two tags share one: the k-th tags of the file have index k, and every index
  // given leads back to its line.
  lemma IndexesAreDense(tags: map<Tags, nat>, lines: seq<(nat, Tags)>)
    requires TagsInOrder(tags, lines)
    ensures |tags| == |lines|
    ensures forall k :: 0 <= k < |lines| ==> lines[k].0 == k && lines[k].1 in tags && tags[lines[k].1] == k
    ensures forall t :: t in tags ==> tags[t] < |lines| && lines[tags[t]].1 == t
  {
    forall k | 0 <= k < |lines| {
      LineHasIndex(tags, lines, k);
    }
    forall t | t in tags {
      IndexHasLine(tags, lines, t);
    }
    SizeOfIndexMap(lines);
  }

  lemma {:induction false} SizeOfIndexMap(lines: seq<(nat, Tags)>)
    requires Numbered(lines)
    ensures |IndexMap(lines)| == |lines|
  {
    if lines != [] {
      var n := |lines| - 1;
      var before := IndexMap(lines[..n]);
      SizeOfIndexMap(lines[..n]);
      assert IndexMap(lines).Keys == before.Keys + {lines[n].1};
    }
  }

  lemma {:induction false} LineHasIndex(tags: map<Tags, nat>, lines: seq<(nat, Tags)>, k: nat)
    requires TagsInOrder(tags, lines) && k < |lines|
    ensures lines[k].0 == k && lines[k].1 in tags && tags[lines[k].1] == k
  {
    var n := |lines| - 1;
    if k < n {
      LineHasIndex(IndexMap(lines[..n]), lines[..n], k);
      assert lines[..n][k] == lines[k];
    }
  }

  lemma {:induction false} IndexHasLine(tags: map<Tags, nat>, lines: seq<(nat, Tags)>, t: Tags)
    requires TagsInOrder(tags, lines) && t in tags
    ensures tags[t] < |lines| && lines[tags[t]].1 == t
  {
    var n := |lines| - 1;
    if t != lines[n].1 {
      IndexHasLine(IndexMap(lines[..n]), lines[..n], t);
    }
  }

  lemma NewTagsInOrder(tags: map<Tags, nat>, lines: seq<(nat, Tags)>, t: Tags)
    requires TagsInOrder(tags, lines) && t !in tags
    ensures TagsInOrder(tags[t := |tags|], lines + [(|tags|, t)])
  {
    SizeOfIndexMap(lines);
    assert (lines + [(|tags|, t)])[..|lines|] == lines;
  }

  lemma TagsAfterAppend(tags: map<Tags, nat>, file: seq<FileMessage>, t: Tags)
    requires TagsInOrder(tags, TagLines(file))
    ensures var i := if t in tags then tags[t] else |tags|;
            var after := if t in tags then file else file + [TagsLine(i, t)];
            && TagsInOrder(tags[t := i], TagLines(after)) && BucketLines(after) == BucketLines(file)
  {
    if t in tags {
      assert tags[t := tags[t]] == tags;
    } else {
      NewTagsInOrder(tags, TagLines(file), t);
      LinesAfter(file, TagsLine(|tags|, t));
    }
  }

  lemma PlacedAfterAppend(stats: seq<Indexed>, tags: map<Tags, nat>, stat: ResponseStat)
    requires Placed(stats, tags)
    ensures var i := if stat.tags in tags then tags[stat.tags] else |tags|;
            Placed(stats + [(stat, i)], tags[stat.tags := i])
  {
  }

  lemma AppendKeeps(s: State, stat: ResponseStat)
    requires Inv(s)
    ensures Inv(AppendStat(s, stat))
    ensures forall cut: nat :: Kept(s, cut) ==> Kept(AppendStat(s, stat), cut)
  {
    var i := IndexOf(s, stat.tags);
    TagsAfterAppend(s.tags, s.file, stat.tags);
    PlacedAfterAppend(s.appended, s.tags, stat);
    AggregateAppend(s.open, stat, i);
    assert Flatten(s.closed) + s.open + [(stat, i)] == Flatten(s.closed) + (s.open + [(stat, i)]);
  }

  lemma WrittenAfterClosing(file: seq<FileMessage>, closed: seq<seq<Indexed>>, bucket: TimeBucket, open: seq<Indexed>)
    requires WrittenAre(BucketLines(file), closed) && bucket.entries == Aggregate(open)
    ensures WrittenAre(BucketLines(file + [BucketLine(bucket)]), closed + [open])
    ensures TagLines(file + [BucketLine(bucket)]) == TagLines(file)
  {
    LinesAfter(file, BucketLine(bucket));
  }

  // Closing a bucket: its stats become a part of their own, and the line written is their aggregate.
  lemma ClosingKeeps(s: State, time: nat)
    requires Inv(s) && time % s.bucketSize == 0
    ensures var after := s.(current := TimeBucket(time, map[]), open := [], closed := s.closed + [s.open],
                            file := s.file + [BucketLine(s.current)]);
            Inv(after) && Flatten(after.closed) == s.appended
  {
    FlattenAppend(s.closed, s.open);
    WrittenAfterClosing(s.file, s.closed, s.current, s.open);
    assert s.appended + [] == s.appended;
  }

  lemma ClosingTotals(s: State, cut: nat)
    requires Inv(s) && Kept(s, cut)
    ensures cut <= |s.appended| && CombinedTotals(s).entries == Aggregate(s.appended[cut..])
  {
    CombineIsAggregate(Flatten(s.closed)[cut..], s.open);
    CutSum(Flatten(s.closed), s.open, cut);
  }

  lemma CutSum(a: seq<Indexed>, b: seq<Indexed>, cut: nat)
    requires cut <= |a|
    ensures (a + b)[cut..] == a[cut..] + b
  {
  }

  // What has been printed last is the totals of all stats but the first `cut`.
  ghost predicate Printed(s: State, cut: nat) {
    && cut <= |s.appended| && Flatten(s.closed) == s.appended && s.totals.entries == map[]
    && s.finals != [] && s.finals[|s.finals| - 1].entries == Aggregate(s.appended[cut..])
  }

  lemma CompletionKeeps(s: State, now: nat, cut: nat)
    requires Inv(s) && Kept(s, cut) && CloseOut(s, true, now).Ok?
    ensures var after := CloseOut(s, true, now).value;
            && Inv(after) && after.appended == s.appended && Printed(after, cut) && Kept(after, |s.appended|)
  {
    ClosingKeeps(s, 0);
    ClosingTotals(s, cut);
    assert s.appended[|s.appended|..] == [];
  }

  lemma TickKeeps(s: State, now: nat, cut: nat)
    requires Inv(s) && Kept(s, cut) && CloseOut(s, false, now).Ok?
    ensures var after := CloseOut(s, false, now).value;
            && Inv(after) && after.appended == s.appended && Kept(after, cut)
  {
    RoundIsStartOfBucket(now, s.bucketSize);
    ClosingKeeps(s, RoundTime(now, s.bucketSize));
    ClosingTotals(s, cut);
  }

  // The index a stat comes to stand under.
  function Added(s: State, item: Item): seq<Indexed> {
    if item.Stat? then [(item.stat, IndexOf(s, item.stat.tags))] else []
  }

  lemma StartKeeps(s: State, given: nat, elapsed: nat)
    requires Inv(s)
    ensures Inv(StartTest(s, given, elapsed))
    ensures forall cut: nat :: Kept(s, cut) ==> Kept(StartTest(s, given, elapsed), cut)
  {
    LinesAfter(s.file, HeaderLine);
    assert TagLines(s.file) + [] == TagLines(s.file) && BucketLines(s.file) + [] == BucketLines(s.file);
  }

  // The end of the test, and a tick before its start, which is treated the same.
  predicate Ends(s: State, item: Item) {
    item.TestComplete? || (item.NewBucket? && !s.started)
  }

  // Main result on one step: the buckets written and the current one always partition the stats in order, and
  // the totals miss no more of them, unless the message is an end: then they miss all that have come.
  lemma StepKeeps(s: State, item: Item, now: nat, cut: nat)
    requires Inv(s) && Kept(s, cut) && Step(s, item, now).Ok?
    ensures var after := Step(s, item, now).value;
            && Inv(after) && after.appended == s.appended + Added(s, item)
            && (if Ends(s, item) then Printed(after, cut) && Kept(after, |s.appended|) else Kept(after, cut))
  {
    assert s.appended + [] == s.appended;
    match item
    case TestComplete => CompletionKeeps(s, now, cut);
    case NewBucket(_) => if s.started { TickKeeps(s, now, cut); } else { CompletionKeeps(s, now, cut); }
    case Start(given, elapsed) => StartKeeps(s, given, elapsed);
    case Stat(stat) => AppendKeeps(s, stat);
  }

  lemma StartIsRemembered(s: State, item: Item, now: nat)
    requires s.bucketSize > 0 && Step(s, item, now).Ok?
    ensures Step(s, item, now).value.started <==> s.started || item.Start?
  {
  }

  // Exactly when and how the receiver panics. One of its assertions fails iff a tick of a started test comes two
  // buckets or more after the start of the current one; the other never fails. A subtraction fails, where overflow
  // is checked, iff a tick comes after the end of the test or a bucket is closed in the first one of the epoch.
  lemma PanicsExactly(s: State, item: Item, now: nat)
    requires Inv(s)
    ensures Step(s, item, now) == Err(Underflow) <==>
              s.checks && (|| (item.NewBucket? && s.started && item.elapsed / SECOND > s.duration)
                           || ((item.NewBucket? || item.TestComplete?) && now < s.bucketSize))
    ensures Step(s, item, now) == Err(UnexpectedTime) <==>
              && item.NewBucket? && s.started && !(s.checks && item.elapsed / SECOND > s.duration)
              && now >= s.current.time + 2 * s.bucketSize
    ensures Step(s, item, now) != Err(LeftOver)
  {
    RoundIsStartOfBucket(now, s.bucketSize);
    BucketIsSkipped(s.current.time, now, s.bucketSize);
    FirstBucket(now, s.bucketSize);
  }

  lemma FirstBucket(now: nat, bucketSize: nat)
    requires bucketSize > 0
    ensures RoundTime(now, bucketSize) < bucketSize <==> now < bucketSize
  {
    if now >= bucketSize {
      MultipleOrder(1, now / bucketSize, bucketSize);
    }
  }

  // ---------- whole runs ----------

  // Messages one after the other; the receiver goes on while it does not panic.
  ghost predicate IsRun(states: seq<State>, items: seq<(Item, nat)>) {
    && |states| == |items| + 1
    && (forall k :: 0 <= k < |states| ==> states[k].bucketSize > 0)
    && IsInitial(states[0])
    && forall k :: 0 <= k < |items| ==> StepsTo(states[k], items[k].0, items[k].1, states[k + 1])
  }

  ghost predicate StepsTo(s: State, item: Item, now: nat, after: State)
    requires s.bucketSize > 0
  {
    Step(s, item, now) == Ok(after)
  }

  // What one step adds and keeps.
  ghost predicate Advances(s: State, item: Item, after: State, cut: nat) {
    && Inv(after)
    && Plain(after.appended) == Plain(s.appended) + (if item.Stat? then [item.stat] else [])
    && (after.started <==> s.started || item.Start?)
    && (if Ends(s, item) then Printed(after, cut) && Kept(after, |s.appended|) else Kept(after, cut))
  }

  lemma StepAdvances(s: State, item: Item, now: nat, after: State, cut: nat)
    requires Inv(s) && Kept(s, cut) && StepsTo(s, item, now, after)
    ensures Advances(s, item, after, cut)
  {
    StepKeeps(s, item, now, cut);
    StartIsRemembered(s, item, now);
    PlainAdded(s.appended, Added(s, item));
    PlainOfAdded(s, item);
  }

  // Whether the test has started before message `n`.
  predicate StartedBefore(items: seq<(Item, nat)>, n: nat)
    requires n <= |items|
  {
    n > 0 && (items[n - 1].0.Start? || StartedBefore(items, n - 1))
  }

  // Message `k` is an end of the test to the receiver.
  predicate EndsAt(items: seq<(Item, nat)>, k: nat)
    requires k < |items|
  {
    items[k].0.TestComplete? || (items[k].0.NewBucket? && !StartedBefore(items, k))
  }

  // The number of stats before the last end among the first `n` messages.
  function Cleared(items: seq<(Item, nat)>, n: nat): nat
    requires n <= |items|
  {
    if n == 0 then 0
    else if EndsAt(items, n - 1) then |StatsOf(items, n - 1)|
    else Cleared(items, n - 1)
  }

  // A stat among the first `n` messages comes before an end.
  ghost predicate StatBeforeEnd(items: seq<(Item, nat)>, n: nat)
    requires n <= |items|
  {
    exists i, k :: 0 <= i < k < n && items[i].0.Stat? && EndsAt(items, k)
  }

  // The stats among the first `n` messages.
  function StatsOf(items: seq<(Item, nat)>, n: nat): seq<ResponseStat>
    requires n <= |items|
  {
    if n == 0 then []
    else StatsOf(items, n - 1) + (if items[n - 1].0.Stat? then [items[n - 1].0.stat] else [])
  }

  function Plain(stats: seq<Indexed>): (r: seq<ResponseStat>)
    ensures |r| == |stats|
    ensures forall k :: 0 <= k < |r| ==> r[k] == stats[k].0
  {
    seq(|stats|, k requires 0 <= k < |stats| => stats[k].0)
  }

  lemma PlainAdded(a: seq<Indexed>, b: seq<Indexed>)
    ensures Plain(a + b) == Plain(a) + Plain(b)
  {
  }

  lemma PlainOfAdded(s: State, item: Item)
    ensures Plain(Added(s, item)) == if item.Stat? then [item.stat] else []
  {
  }

  lemma {:induction false} SomeStat(items: seq<(Item, nat)>, n: nat)
    requires n <= |items|
    ensures StatsOf(items, n) != [] <==> exists i :: 0 <= i < n && items[i].0.Stat?
  {
    if n > 0 {
      SomeStat(items, n - 1);
    }
  }

  lemma {:induction false} ClearedIsSome(items: seq<(Item, nat)>, n: nat)
    requires n <= |items|
    ensures Cleared(items, n) != 0 <==> StatBeforeEnd(items, n)
  {
    if n > 0 {
      ClearedIsSome(items, n - 1);
      SomeStat(items, n - 1);
      if EndsAt(items, n - 1) && StatBeforeEnd(items, n - 1) {
        var i, k :| 0 <= i < k < n - 1 && items[i].0.Stat? && EndsAt(items, k);
      }
    }
  }

  // The totals miss only the stats before the last end.
  lemma {:induction false} RunKeepsTotals(states: seq<State>, items: seq<(Item, nat)>, n: nat)
    requires IsRun(states, items) && n <= |items|
    ensures Inv(states[n]) && Kept(states[n], Cleared(items, n)) && Plain(states[n].appended) == StatsOf(items, n)
    ensures states[n].started <==> StartedBefore(items, n)
  {
    if n == 0 {
      InitialHolds(states[0].bucketSize, states[0].checks, states[0].totals.time);
    } else {
      var k := n - 1;
      RunKeepsTotals(states, items, k);
      StepAdvances(states[k], items[k].0, items[k].1, states[n], Cleared(items, k));
    }
  }

  // Main result: at every point of every run, the stats that have come in stand under the index of their
  // tags, and the buckets written and the current one hold each of them exactly once, in order.
  lemma RunPartitions(states: seq<State>, items: seq<(Item, nat)>, n: nat)
    requires IsRun(states, items) && n <= |items|
    ensures var s := states[n];
            && Plain(s.appended) == StatsOf(items, n) && Placed(s.appended, s.tags)
            && s.appended == Flatten(s.closed) + s.open
            && WrittenAre(BucketLines(s.file), s.closed) && s.current.entries == Aggregate(s.open)
            && TagsInOrder(s.tags, TagLines(s.file))
  {
    RunKeepsTotals(states, items, n);
  }

  // `es` is the aggregate of the stats from `cut` on, and of all of them exactly if `whole` holds.
  ghost predicate Aggregates(es: Entries, stats: seq<Indexed>, cut: nat, whole: bool) {
    cut <= |stats| && es == Aggregate(stats[cut..]) && (es == Aggregate(stats) <==> whole)
  }

  lemma CutAggregates(es: Entries, stats: seq<Indexed>, items: seq<(Item, nat)>, n: nat)
    requires n <= |items| && Cleared(items, n) <= |stats| && es == Aggregate(stats[Cleared(items, n)..])
    ensures Aggregates(es, stats, Cleared(items, n), !StatBeforeEnd(items, n))
  {
    var cut := Cleared(items, n);
    ClearedIsSome(items, n);
    LeftOutIsMissed(stats[..cut], stats[cut..]);
    assert stats == stats[..cut] + stats[cut..];
  }

  // Main result: at every point of every run, the totals combined with the current bucket are the aggregate of
  // the stats since the last end, so of all stats exactly if none came before an end.
  lemma RunConserves(states: seq<State>, items: seq<(Item, nat)>, n: nat)
    requires IsRun(states, items) && n <= |items|
    ensures var s := states[n];
            Aggregates(CombinedTotals(s).entries, s.appended, Cleared(items, n), !StatBeforeEnd(items, n))
  {
    RunKeepsTotals(states, items, n);
    ClosingTotals(states[n], Cleared(items, n));
    CutAggregates(CombinedTotals(states[n]).entries, states[n].appended, items, n);
  }

  // Main result: at an end, every stat has been written, and the totals printed are the aggregate of the stats
  // since the end before, so of all stats exactly if none came before an earlier end.
  lemma EndConserves(states: seq<State>, items: seq<(Item, nat)>, n: nat)
    requires IsRun(states, items) && n < |items| && EndsAt(items, n)
    ensures var s := states[n + 1];
            && Flatten(s.closed) == s.appended && s.finals != []
            && Aggregates(s.finals[|s.finals| - 1].entries, s.appended, Cleared(items, n), !StatBeforeEnd(items, n))
  {
    RunKeepsTotals(states, items, n);
    StepAdvances(states[n], items[n].0, items[n].1, states[n + 1], Cleared(items, n));
    var s := states[n + 1];
    CutAggregates(s.finals[|s.finals| - 1].entries, s.appended, items, n);
  }

  // ---------- the order messages are sent in ----------

  // Every stat comes after a start: the start is sent before any endpoint is polled.
  ghost predicate StartComesFirst(items: seq<(Item, nat)>) {
    forall k :: 0 <= k < |items| && items[k].0.Stat? ==> StartedBefore(items, k)
  }

  // The test is not complete before message `n`.
  predicate Going(items: seq<(Item, nat)>, n: nat)
    requires n <= |items|
  {
    forall k :: 0 <= k < n ==> !items[k].0.TestComplete?
  }

  lemma {:induction false} StartedStays(items: seq<(Item, nat)>, i: nat, k: nat)
    requires i <= k <= |items| && StartedBefore(items, i)
    ensures StartedBefore(items, k)
  {
    if i < k {
      StartedStays(items, i, k - 1);
    }
  }

  lemma NoStatBeforeEnd(items: seq<(Item, nat)>, n: nat)
    requires StartComesFirst(items) && n <= |items| && Going(items, n)
    ensures !StatBeforeEnd(items, n)
  {
    forall i, k | 0 <= i < k < n && items[i].0.Stat?
      ensures !EndsAt(items, k)
    {
      StartedStays(items, i, k);
    }
  }

  // The totals count every stat: while the test goes on, combined with the current bucket, and when it is
  // complete, as they have been printed.
  ghost predicate AllCounted(s: State, complete: bool) {
    if complete then
      && s.finals != [] && s.finals[|s.finals| - 1].entries == Aggregate(s.appended)
      && Flatten(s.closed) == s.appended
    else CombinedTotals(s).entries == Aggregate(s.appended)
  }

  predicate IsComplete(items: seq<(Item, nat)>) {
    items != [] && items[|items| - 1].0.TestComplete?
  }

  // Main result: in the order messages are sent in, no stat is ever missing from the totals.
  lemma NothingIsLost(states: seq<State>, items: seq<(Item, nat)>)
    requires IsRun(states, items) && StartComesFirst(items)
    requires items != [] ==> Going(items, |items| - 1)
    ensures AllCounted(states[|items|], IsComplete(items))
  {
    var n := |items|;
    if IsComplete(items) {
      NoStatBeforeEnd(items, n - 1);
      EndConserves(states, items, n - 1);
    } else {
      NoStatBeforeEnd(items, n);
      RunConserves(states, items, n);
    }
  }

  // A tick before the start of the test prints and blanks the totals, and the first tick after the start
  // panics: the current bucket has been given the time 0.
  lemma EarlyTickIsFatal(s: State, early: nat, start: Item, tick: nat, now: nat)
    requires Inv(s) && !s.started && start.Start? && tick >= 2 * s.bucketSize
    requires Step(s, NewBucket(0), early).Ok?
    ensures var s1 := Step(s, NewBucket(0), early).value;
            && s1.totals.entries == map[] && s1.bucketSize == s.bucketSize && Step(s1, start, now).Ok?
            && var s2 := Step(s1, start, now).value;
               s2.bucketSize == s.bucketSize && forall elapsed: nat :: Step(s2, NewBucket(elapsed), tick).Err?
  {
  }
}
