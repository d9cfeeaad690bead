/** The statistics receiver: the object that manages the buckets, and the loop that feeds it. */
module StatsReceiver {
  import opened Wrappers
  import opened StatsBuckets
  import opened StatsRuns

  class Stats {
    const bucketSize: nat
    // whether the arithmetic is checked for overflow
    const checks: bool
    var duration: nat
    var current: TimeBucket
    var previous: Option<TimeBucket>
    var tags: map<Tags, nat>
    var totals: TimeBucket
    // what has been written to the stats file, and the final totals sent to the console
    var file: seq<FileMessage>
    var finals: seq<TimeBucket>
    ghost var open: seq<Indexed>
    ghost var closed: seq<seq<Indexed>>
    ghost var appended: seq<Indexed>

    ghost function Now(started: bool): State
      reads this
    {
      State(bucketSize, checks, duration, current, previous, tags, totals, file, started, finals, open, closed,
            appended)
    }

    constructor (bucketSize: nat, checks: bool, now: nat)
      requires bucketSize > 0
      ensures this.bucketSize == bucketSize && Now(false) == Initial(bucketSize, checks, now)
    {
      this.bucketSize := bucketSize;
      this.checks := checks;
      this.duration := 0;
      this.current := TimeBucket(RoundTime(now, bucketSize), map[]);
      this.previous := None;
      this.tags := map[];
      this.totals := TimeBucket(now, map[]);
      this.file := [];
      this.finals := [];
      this.open := [];
      this.closed := [];
      this.appended := [];
    }

    method CheckCurrentBucket(now: nat, ghost started: bool) returns (r: Result<(), Panic>)
      requires bucketSize > 0
      modifies this
      ensures r.Err? ==> CheckCurrent(old(Now(started)), now) == Err(r.error)
      ensures r.Ok? ==> CheckCurrent(old(Now(started)), now) == Ok(Now(started))
    {
      var currentBucketTime := RoundTime(now, bucketSize);
      if current.time < currentBucketTime {
        var completed := current;
        current := TimeBucket(currentBucketTime, map[]);
        var previousBucketTime := currentBucketTime - bucketSize;
        if completed.time != previousBucketTime {
          return Err(UnexpectedTime);
        }
        if previous.Some? {
          return Err(LeftOver);
        }
        totals := CombineBuckets(totals, completed);
        previous := Some(completed);
        closed := closed + [open];
        open := [];
      }
      r := Ok(());
    }

    method TakeCurrentBucket(ghost started: bool) returns (bucket: TimeBucket)
      modifies this
      ensures bucket == old(current) && Now(started) == TakeCurrent(old(Now(started)))
    {
      bucket := current;
      var combined := CombineBuckets(totals, bucket);
      current := TimeBucket(0, map[]);
      totals := combined;
      closed := closed + [open];
      open := [];
    }

    method GetPreviousBucket(testComplete: bool, now: nat, ghost started: bool)
      returns (r: Result<Option<TimeBucket>, Panic>)
      requires bucketSize > 0
      modifies this
      ensures r.Err? ==> GetPrevious(old(Now(started)), testComplete, now) == Err(r.error)
      ensures r.Ok? ==> GetPrevious(old(Now(started)), testComplete, now) == Ok((Now(started), r.value))
    {
      if testComplete {
        var bucket := TakeCurrentBucket(started);
        return Ok(Some(bucket));
      }
      if previous.Some? {
        r := Ok(previous);
        previous := None;
        return;
      }
      var checked := CheckCurrentBucket(now, started);
      if checked.Err? {
        return Err(checked.error);
      }
      r := Ok(previous);
      previous := None;
    }

    method AppendResponse(stat: ResponseStat, ghost started: bool)
      requires bucketSize > 0
      modifies this
      ensures Now(started) == AppendStat(old(Now(started)), stat)
    {
      var isNew := stat.tags !in tags;
      var index := if isNew then |tags| else tags[stat.tags];
      ghost var before := tags;
      if isNew {
        tags := tags[stat.tags := index];
      }
      assert tags == before[stat.tags := index];
      current := TimeBucket(current.time, AppendAt(current.entries, stat, index));
      open := open + [(stat, index)];
      appended := appended + [(stat, index)];
      if isNew {
        file := file + [TagsLine(index, stat.tags)];
      }
    }

    method CloseOutBucket(testComplete: bool, now: nat, ghost started: bool) returns (r: Result<(), Panic>)
      requires bucketSize > 0
      modifies this
      ensures r.Err? ==> CloseOut(old(Now(started)), testComplete, now) == Err(r.error)
      ensures r.Ok? ==> CloseOut(old(Now(started)), testComplete, now) == Ok(Now(started))
    {
      if checks && RoundTime(now, bucketSize) < bucketSize {
        return Err(Underflow);
      }
      var bucket := GetPreviousBucket(testComplete, now, started);
      if bucket.Err? {
        return Err(bucket.error);
      }
      if bucket.value.Some? {
        file := file + [BucketLine(bucket.value.value)];
      }
      if testComplete {
        finals := finals + [totals];
        totals := TimeBucket(0, map[]);
      }
      r := Ok(());
    }

    // One message; whether the test has started is a variable of its loop.
    method Handle(item: Item, now: nat, started: bool) returns (r: Result<bool, Panic>)
      requires bucketSize > 0
      modifies this
      ensures r.Err? ==> Step(old(Now(started)), item, now) == Err(r.error)
      ensures r.Ok? ==> Step(old(Now(started)), item, now) == Ok(Now(r.value))
    {
      var closing: Result<(), Panic> := Ok(());
      match item {
        case TestComplete =>
          closing := CloseOutBucket(true, now, started);
        case NewBucket(elapsed) =>
          if started && checks && elapsed / SECOND > duration {
            return Err(Underflow);
          }
          closing := CloseOutBucket(!started, now, started);
        case Start(given, elapsed) =>
          if started {
            var ends := elapsed + given;
            if !(duration * SECOND - SECOND < ends < duration * SECOND + SECOND) {
              duration := ends / SECOND;
            }
          } else {
            duration := given / SECOND;
            file := file + [HeaderLine];
          }
          return Ok(true);
        case Stat(stat) =>
          AppendResponse(stat, started);
      }
      r := if closing.Err? then Err(closing.error) else Ok(started);
    }

    // One turn of the receiver's loop, which lengthens the run so far.
    method Turn(items: seq<(Item, nat)>, n: nat, started: bool, ghost states: seq<State>)
      returns (r: Result<bool, Panic>, ghost grown: seq<State>)
      requires bucketSize > 0 && n < |items| && states != []
      requires RunsThrough(states, items, n, states[0]) && states[n] == Now(started)
      modifies this
      ensures r.Err? ==> Step(states[n], items[n].0, items[n].1) == Err(r.error)
      ensures r.Ok? ==> RunsThrough(grown, items, n + 1, states[0]) && grown[n + 1] == Now(r.value)
    {
      var (item, now) := items[n];
      r := Handle(item, now, started);
      grown := states;
      if r.Ok? {
        RunGrows(states, items, n, Now(r.value));
        grown := states + [Now(r.value)];
      }
    }

    // The loop of the receiver, with the states it goes through.
    method Run(items: seq<(Item, nat)>) returns (r: Result<(), Panic>, n: nat, ghost states: seq<State>)
      requires IsInitial(Now(false))
      modifies this
      ensures RunsThrough(states, items, n, old(Now(false))) && (n > 0 ==> Going(items, n - 1))
      ensures r.Ok? ==> (exists started :: states[n] == Now(started))
                        && (n == |items| || (n > 0 && items[n - 1].0.TestComplete?))
      ensures r.Err? ==> n < |items| && Step(states[n], items[n].0, items[n].1) == Err(r.error)
    {
      var started := false;
      ghost var first := Now(false);
      states := [first];
      RunBegins(first, items);
      n := 0;
      while n < |items|
        invariant RunsThrough(states, items, n, first) && Going(items, n) && states[n] == Now(started)
      {
        var handled, grown := Turn(items, n, started, states);
        if handled.Err? {
          return Err(handled.error), n, states;
        }
        started := handled.value;
        states := grown;
        n := n + 1;
        if items[n - 1].0.TestComplete? {
          return Ok(()), n, states;
        }
      }
      r := Ok(());
    }
  }

  // The states gone through with the first `n` messages.
  ghost predicate RunsThrough(states: seq<State>, items: seq<(Item, nat)>, n: nat, first: State) {
    n <= |items| && |states| == n + 1 && states[0] == first && IsRun(states, items[..n])
  }

  // The receiver from its beginning: its messages make a run, and those that start before any stat lose none.
  method Receive(bucketSize: nat, checks: bool, startTime: nat, items: seq<(Item, nat)>)
    returns (stats: Stats, r: Result<(), Panic>, n: nat, ghost states: seq<State>)
    requires bucketSize > 0
    ensures RunsThrough(states, items, n, Initial(bucketSize, checks, startTime))
    ensures r.Ok? ==> (exists started :: states[n] == stats.Now(started))
                      && (n == |items| || (n > 0 && items[n - 1].0.TestComplete?))
    ensures r.Err? ==> n < |items| && Step(states[n], items[n].0, items[n].1) == Err(r.error)
    ensures StartComesFirst(items) ==> AllCounted(states[n], IsComplete(items[..n]))
  {
    stats := new Stats(bucketSize, checks, startTime);
    r, n, states := stats.Run(items);
    AllIsCounted(states, items, n);
  }

  lemma AllIsCounted(states: seq<State>, items: seq<(Item, nat)>, n: nat)
    requires states != [] && RunsThrough(states, items, n, states[0]) && (n > 0 ==> Going(items, n - 1))
    ensures StartComesFirst(items) ==> AllCounted(states[n], IsComplete(items[..n]))
  {
    if StartComesFirst(items) {
      forall k | 0 <= k < n && items[..n][k].0.Stat?
        ensures StartedBefore(items[..n], k)
      {
        StartedInPart(items, n, k);
      }
      NothingIsLost(states, items[..n]);
    }
  }

  lemma {:induction false} StartedInPart(items: seq<(Item, nat)>, n: nat, k: nat)
    requires k <= n <= |items|
    ensures StartedBefore(items[..n], k) <==> StartedBefore(items, k)
  {
    if k > 0 {
      StartedInPart(items, n, k - 1);
    }
  }

  lemma RunBegins(s: State, items: seq<(Item, nat)>)
    requires IsInitial(s)
    ensures RunsThrough([s], items, 0, s)
  {
  }

  lemma RunGrows(states: seq<State>, items: seq<(Item, nat)>, n: nat, after: State)
    requires states != [] && n < |items| && RunsThrough(states, items, n, states[0])
    requires after.bucketSize > 0 && StepsTo(states[n], items[n].0, items[n].1, after)
    ensures RunsThrough(states + [after], items, n + 1, states[0])
  {
    var grown := states + [after];
    forall k | 0 <= k < n + 1
      ensures StepsTo(grown[k], items[..n + 1][k].0, items[..n + 1][k].1, grown[k + 1])
    {
      if k < n {
        assert items[..n][k] == items[k] && items[..n + 1][k] == items[k];
        assert StepsTo(states[k], items[..n][k].0, items[..n][k].1, states[k + 1]);
      }
    }
  }
}
