/**
 The parallel runner: it pulls items off a stream, spawns a future for each, and watches the futures it has
 spawned, never more of them than a limit allows.
 */
module ParallelRunner {
  import opened Wrappers
  import opened ScriptedStreams
  import opened AdaptiveLimits

  // A spawned future as its receiver sees it: some polls find it running, then it is done, perhaps with an
  // error.
  datatype Spawned<E> = Spawned(polls: nat, error: Option<E>)

  // ---------- one pass over the futures ----------

  // The futures still running after a poll of each.
  function StillRunning<E>(futures: seq<Spawned<E>>): (r: seq<Spawned<E>>)
    ensures |r| <= |futures|
  {
    if futures == [] then []
    else
      var f := futures[|futures| - 1];
      StillRunning(futures[..|futures| - 1]) + (if f.polls > 0 then [Spawned(f.polls - 1, f.error)] else [])
  }

  // Pass by pass, every future on its own and in place: as long as it has polls to go it is tracked.
  function AfterPasses<E>(futures: seq<Spawned<E>>, passes: nat): seq<Spawned<E>>
    decreases passes
  {
    if passes == 0 then futures else AfterPasses(StillRunning(futures), passes - 1)
  }

  lemma {:induction false} PassJoins<E>(a: seq<Spawned<E>>, b: seq<Spawned<E>>)
    ensures StillRunning(a + b) == StillRunning(a) + StillRunning(b)
  {
    if b == [] {
      assert a + b == a;
    } else {
      PassJoins(a, b[..|b| - 1]);
      assert (a + b)[..|a + b| - 1] == a + b[..|b| - 1];
    }
  }

  lemma {:induction false} PassesJoin<E>(a: seq<Spawned<E>>, b: seq<Spawned<E>>, passes: nat)
    ensures AfterPasses(a + b, passes) == AfterPasses(a, passes) + AfterPasses(b, passes)
    decreases passes
  {
    if passes > 0 {
      PassJoins(a, b);
      PassesJoin(StillRunning(a), StillRunning(b), passes - 1);
    }
  }

  // Main result on tracking: a future that needs more polls is still tracked after them, between the same others, and
  // one that does not is not.
  lemma {:induction false} TrackedWhileRunning<E>(
    before: seq<Spawned<E>>, f: Spawned<E>, behind: seq<Spawned<E>>, passes: nat)
    ensures AfterPasses(before + [f] + behind, passes)
         == AfterPasses(before, passes)
            + (if passes <= f.polls then [Spawned(f.polls - passes, f.error)] else [])
            + AfterPasses(behind, passes)
  {
    PassesJoin(before + [f], behind, passes);
    PassesJoin(before, [f], passes);
    OneAfterPasses(f, passes);
  }

  lemma PassOfOne<E>(f: Spawned<E>)
    ensures StillRunning([f]) == if f.polls > 0 then [Spawned(f.polls - 1, f.error)] else []
  {
    assert [f][..0] == [];
  }

  lemma {:induction false} OneAfterPasses<E>(f: Spawned<E>, passes: nat)
    ensures AfterPasses([f], passes) == if passes <= f.polls then [Spawned(f.polls - passes, f.error)] else []
    decreases passes
  {
    if passes > 0 {
      PassOfOne(f);
      if f.polls > 0 {
        OneAfterPasses(Spawned(f.polls - 1, f.error), passes - 1);
      } else {
        NoneAfterPasses<E>(passes - 1);
      }
    }
  }

  lemma {:induction false} NoneAfterPasses<E>(passes: nat)
    ensures AfterPasses<E>([], passes) == []
    decreases passes
  {
    if passes > 0 {
      NoneAfterPasses<E>(passes - 1);
    }
  }

  ghost predicate ErrorTracked<E>(futures: seq<Spawned<E>>, error: Option<E>) {
    exists j :: 0 <= j < |futures| && futures[j].error == error
  }

  // A pass that observes no error forgets none.
  lemma {:induction false} PassForgetsNoError<E>(futures: seq<Spawned<E>>, error: Option<E>)
    requires Observed(futures, None).None? && error.Some? && ErrorTracked(futures, error)
    ensures ErrorTracked(StillRunning(futures), error)
  {
    var n := |futures| - 1;
    var left := StillRunning(futures);
    if futures[n].error == error {
      assert left[|left| - 1].error == error;
    } else {
      var j :| 0 <= j < |futures| && futures[j].error == error;
      assert futures[..n][j].error == error;
      PassForgetsNoError(futures[..n], error);
      var i :| 0 <= i < |StillRunning(futures[..n])| && StillRunning(futures[..n])[i].error == error;
      assert left[i].error == error;
    }
  }

  // The error observed: of several in one pass, the last; `error` if there is none.
  function Observed<E>(futures: seq<Spawned<E>>, error: Option<E>): Option<E> {
    if futures == [] then error
    else
      var f := futures[|futures| - 1];
      if f.polls == 0 && f.error.Some? then f.error else Observed(futures[..|futures| - 1], error)
  }

  lemma {:induction false} ObservedIsAnError<E>(futures: seq<Spawned<E>>, error: Option<E>)
    ensures Observed(futures, error) == error || exists k :: 0 <= k < |futures| && futures[k].polls == 0
                                                         && futures[k].error == Observed(futures, error)
    ensures (forall k :: 0 <= k < |futures| && futures[k].polls == 0 ==> futures[k].error.None?)
            ==> Observed(futures, error) == error
    ensures error.Some? || (exists k :: 0 <= k < |futures| && futures[k].polls == 0 && futures[k].error.Some?)
            <==> Observed(futures, error).Some?
  {
    if futures != [] {
      var n := |futures| - 1;
      ObservedIsAnError(futures[..n], error);
      assert forall k :: 0 <= k < n ==> futures[..n][k] == futures[k];
    }
  }

  predicate Fails<E>(f: Spawned<E>) {
    f.polls == 0 && f.error.Some?
  }

  predicate IsLastFailing<E>(futures: seq<Spawned<E>>, k: nat) {
    k < |futures| && Fails(futures[k]) && forall j :: k < j < |futures| ==> !Fails(futures[j])
  }

  predicate IsFirstFailing<E>(futures: seq<Spawned<E>>, i: nat) {
    i < |futures| && Fails(futures[i]) && forall j :: 0 <= j < i ==> !Fails(futures[j])
  }

  // Of all futures that fail between two polls it is the last one's error that is kept.
  lemma {:induction false} LastErrorIsKept<E>(futures: seq<Spawned<E>>, k: nat)
    requires IsLastFailing(futures, k)
    ensures Observed(futures, None) == futures[k].error
  {
    var n := |futures| - 1;
    if k < n {
      assert !Fails(futures[n]);
      LastErrorIsKept(futures[..n], k);
    }
  }

  lemma SomeIsLast<E>(futures: seq<Spawned<E>>, i: nat) returns (k: nat)
    requires i < |futures| && Fails(futures[i])
    ensures i <= k && IsLastFailing(futures, k)
  {
    k := |futures| - 1;
    while !Fails(futures[k])
      invariant i <= k < |futures| && forall j :: k < j < |futures| ==> !Fails(futures[j])
      decreases k
    {
      k := k - 1;
    }
  }

  // It is the first one's error exactly if the last one has the same; where no later one has, exactly if no later
  // one fails.
  lemma FirstErrorIsKeptExactly<E>(futures: seq<Spawned<E>>, i: nat)
    requires IsFirstFailing(futures, i)
    ensures Observed(futures, None) == futures[i].error
            <==> exists k :: i <= k && IsLastFailing(futures, k) && futures[k].error == futures[i].error
    ensures (forall j :: i < j < |futures| && Fails(futures[j]) ==> futures[j].error != futures[i].error) ==>
              (Observed(futures, None) == futures[i].error <==> IsLastFailing(futures, i))
  {
    var last := SomeIsLast(futures, i);
    LastErrorIsKept(futures, last);
    forall k | IsLastFailing(futures, k)
      ensures k == last
    {
      assert !(k < last) && !(last < k);
    }
  }

  // ---------- rounds ----------

  datatype Core<St, E> = Core(stream: Option<Stream<St, E>>, futures: seq<Spawned<E>>, error: Option<E>)

  predicate HasRoom<St, E>(c: Core<St, E>, limit: nat) {
    c.stream.Some? && (limit == 0 || limit > |c.futures|)
  }

  // One poll of the stream, and the item it gave.
  function Pulled<St, E>(c: Core<St, E>, f: St -> Spawned<E>): (Core<St, E>, seq<St>)
    requires c.stream.Some?
  {
    if c.stream.value == [] then (c.(stream := None), [])
    else
      var rest := Some(c.stream.value[1..]);
      match c.stream.value[0]
      case Item(v) => (c.(stream := rest, futures := c.futures + [f(v)]), [v])
      case NotYet => (c.(stream := rest), [])
      case Failed(e) => (Core(None, [], Some(e)), [])
  }

  function Passed<St, E>(c: Core<St, E>): Core<St, E> {
    if c.error.Some? then Core(None, [], c.error)
    else
      var error := Observed(c.futures, None);
      if error.Some? then Core(None, [], error) else Core(c.stream, StillRunning(c.futures), None)
  }

  // An item if there is room, then a poll of every future.
  function PulledIfRoom<St, E>(c: Core<St, E>, limit: nat, f: St -> Spawned<E>): (Core<St, E>, seq<St>) {
    if HasRoom(c, limit) then Pulled(c, f) else (c, [])
  }

  predicate Progressed<St, E>(c: Core<St, E>, limit: nat, f: St -> Spawned<E>) {
    var (pulled, items) := PulledIfRoom(c, limit, f);
    items != [] || |StillRunning(pulled.futures)| < |pulled.futures|
  }

  function Size<St, E>(c: Core<St, E>): nat {
    if c.stream.Some? then |c.stream.value| + 1 else 0
  }

  lemma RoundsEnd<St, E>(c: Core<St, E>, limit: nat, f: St -> Spawned<E>)
    ensures var next := Passed(PulledIfRoom(c, limit, f).0);
            next.error.None? && Progressed(c, limit, f) ==>
              Size(next) < Size(c) || (Size(next) == Size(c) && |next.futures| < |c.futures|)
  {
  }

  // A whole poll under one limit: rounds while they get anywhere, with the items spawned.
  function Polled<St, E>(c: Core<St, E>, limit: nat, f: St -> Spawned<E>)
    : (Core<St, E>, Poll<Result<(), E>>, seq<St>)
    decreases Size(c), |c.futures|
  {
    var (pulled, items) := PulledIfRoom(c, limit, f);
    var next := Passed(pulled);
    if next.error.Some? then (next.(error := None), Ready(Err(next.error.value)), items)
    else if next.futures == [] && next.stream.None? then (next, Ready(Ok(())), items)
    else if !Progressed(c, limit, f) then (next, Pending, items)
    else
      RoundsEnd(c, limit, f);
      var (last, r, more) := Polled(next, limit, f);
      (last, r, items + more)
  }

  // ---------- every run ends ----------

  function Work<E>(futures: seq<Spawned<E>>): nat {
    if futures == [] then 0 else Work(futures[..|futures| - 1]) + futures[|futures| - 1].polls + 1
  }

  function WorkToCome<St, E>(s: Stream<St, E>, f: St -> Spawned<E>): nat {
    if s == [] then 1
    else (if s[0].Item? then f(s[0].v).polls + 2 else 1) + WorkToCome(s[1..], f)
  }

  function Weight<St, E>(c: Core<St, E>, f: St -> Spawned<E>): nat {
    (if c.stream.Some? then WorkToCome(c.stream.value, f) else 0) + Work(c.futures)
  }

  lemma {:induction false} PassWorks<E>(futures: seq<Spawned<E>>)
    ensures Work(StillRunning(futures)) + |futures| <= Work(futures)
  {
    if futures != [] {
      var n := |futures| - 1;
      PassWorks(futures[..n]);
      var left := StillRunning(futures[..n]);
      if futures[n].polls > 0 {
        assert (left + [Spawned(futures[n].polls - 1, futures[n].error)])[..|left|] == left;
      } else {
        assert left + [] == left;
      }
    }
  }

  lemma PullWorks<St, E>(c: Core<St, E>, f: St -> Spawned<E>)
    requires c.stream.Some?
    ensures Pulled(c, f).0.error.None? ==> Weight(Pulled(c, f).0, f) < Weight(c, f)
  {
    if c.stream.value != [] && c.stream.value[0].Item? {
      assert (c.futures + [f(c.stream.value[0].v)])[..|c.futures|] == c.futures;
    }
  }

  // A round does some of the work, unless nothing is left to do.
  lemma RoundWorks<St, E>(c: Core<St, E>, limit: nat, f: St -> Spawned<E>)
    requires c.stream.Some? || c.futures != []
    ensures var next := Passed(PulledIfRoom(c, limit, f).0); next.error.None? ==> Weight(next, f) < Weight(c, f)
  {
    var pulled := PulledIfRoom(c, limit, f).0;
    if HasRoom(c, limit) {
      PullWorks(c, f);
    }
    PassWorks(pulled.futures);
  }

  lemma {:induction false} PendingWorks<St, E>(c: Core<St, E>, limit: nat, f: St -> Spawned<E>)
    requires Polled(c, limit, f).1.Pending?
    ensures Weight(Polled(c, limit, f).0, f) < Weight(c, f)
    decreases Size(c), |c.futures|
  {
    var next := Passed(PulledIfRoom(c, limit, f).0);
    if c.stream.Some? || c.futures != [] {
      RoundWorks(c, limit, f);
    }
    if Progressed(c, limit, f) {
      RoundsEnd(c, limit, f);
      PendingWorks(next, limit, f);
    }
  }

  // Whether one of the polls, each under a limit of its own, has a result.
  predicate HasResult<St, E>(c: Core<St, E>, limits: seq<nat>, f: St -> Spawned<E>)
    decreases |limits|
  {
    limits != [] && (Polled(c, limits[0], f).1.Ready? || HasResult(Polled(c, limits[0], f).0, limits[1..], f))
  }

  // Main result: under any limits, the runner has a result after as many polls as there is work.
  lemma {:induction false} RunnerEnds<St, E>(c: Core<St, E>, limits: seq<nat>, f: St -> Spawned<E>)
    requires |limits| > Weight(c, f)
    ensures HasResult(c, limits, f)
    decreases |limits|
  {
    if Polled(c, limits[0], f).1.Pending? {
      PendingWorks(c, limits[0], f);
      RunnerEnds(Polled(c, limits[0], f).0, limits[1..], f);
    }
  }

  class ForEachParallel<St(!new), E(!new)> {
    const f: St -> Spawned<E>
    const limitFn: LimitFn?
    var futures: seq<Spawned<E>>
    var stream: Option<Stream<St, E>>
    var error: Option<E>
    // the stream given, and what has been spawned
    ghost const all: Stream<St, E>
    ghost var spawned: seq<St>

    // An error of the stream or of a spawned future.
    ghost predicate Raised(e: E)
      reads this
    {
      Failure(all) == Some(e) || FromSpawned(e)
    }

    ghost predicate FromSpawned(e: E)
      reads this
    {
      exists k :: 0 <= k < |spawned| && f(spawned[k]).error == Some(e)
    }

    ghost predicate AllFrom(fs: seq<Spawned<E>>)
      reads this
    {
      forall k :: 0 <= k < |fs| && fs[k].error.Some? ==> FromSpawned(fs[k].error.value)
    }

    // The future of every item that is to fail is still tracked.
    ghost predicate Covered()
      reads this
    {
      forall k :: 0 <= k < |spawned| && f(spawned[k]).error.Some? ==> ErrorTracked(futures, f(spawned[k]).error)
    }

    ghost predicate AllSucceeded()
      reads this
    {
      forall k :: 0 <= k < |spawned| ==> f(spawned[k]).error.None?
    }

    lemma NoneTracked()
      requires Covered() && futures == []
      ensures AllSucceeded()
    {
    }

    // While running: what was spawned and what is to come are the items of the stream, and no error is missed.
    ghost predicate Running()
      reads this
    {
      && error.None?
      && AllFrom(futures) && Covered()
      && (stream.Some? ==> Values(all) == spawned + Values(stream.value) && Failure(all) == Failure(stream.value))
      && (stream.None? ==> Values(all) == spawned && Failure(all).None?)
    }

    ghost predicate Finished()
      reads this
    {
      futures == [] && stream.None? && error.None? && spawned <= Values(all)
    }

    ghost predicate WithinLimit()
      reads this
    {
      limitFn != null && limitFn.maxParallel.Some? ==> |futures| <= limitFn.maxParallel.value
    }

    ghost predicate Valid()
      reads this, limitFn
    {
      && (limitFn != null ==> limitFn.Valid() && (limitFn.blockingOutgoing || limitFn.maxParallel.Some?))
      && (Running() || Finished()) && WithinLimit()
    }

    constructor (limitFn: LimitFn?, stream: Stream<St, E>, f: St -> Spawned<E>)
      requires limitFn != null ==> limitFn.Valid() && (limitFn.blockingOutgoing || limitFn.maxParallel.Some?)
      ensures Valid() && Running() && this.f == f && this.limitFn == limitFn && all == stream
      ensures spawned == [] && futures == []
    {
      this.f := f;
      this.limitFn := limitFn;
      this.futures := [];
      this.stream := Some(stream);
      this.error := None;
      this.all := stream;
      this.spawned := [];
    }

    ghost function Now(): Core<St, E>
      reads this
    {
      Core(stream, futures, error)
    }

    // Items are spawned in order, each once. Ok comes only if all of them have been spawned and none fails;
    // an error is one that the stream or a spawned future came up with.
    method PollOnce(rooms: Rooms) returns (r: Poll<Result<(), E>>, ghost limit: nat)
      requires Valid() && Running()
      modifies this, limitFn
      ensures Valid() && LimitOk(limit)
      ensures var (last, result, items) := Polled(old(Now()), limit, f);
              Now() == last && r == result && spawned == old(spawned) + items && spawned <= Values(all)
      ensures match r
              case Ready(Ok(_)) =>
                && futures == [] && stream.None? && spawned == Values(all) && Failure(all).None?
                && AllSucceeded()
              case Ready(Err(e)) => Finished() && Raised(e)
              case Pending => Running() && (futures != [] || stream.Some?)
    {
      var called := 0;
      if limitFn != null {
        called := limitFn.Call(|futures|, rooms);
      }
      limit := called;
      while true
        invariant LimitOk(limit) && limit == called && Running() && WithinLimit()
        invariant var (last, result, items) := Polled(old(Now()), limit, f);
                  var (last', result', items') := Polled(Now(), limit, f);
                  last == last' && result == result' && old(spawned) + items == spawned + items'
        decreases Size(Now()), |futures|
      {
        ghost var before, had := Now(), spawned;
        RoundsEnd(before, limit, f);
        var madeProgress := Round(called);
        SpawnedJoin(had, PulledIfRoom(before, limit, f).1, Polled(Now(), limit, f).2);
        if error.Some? {
          r := Ready(Err(error.value));
          error := None;
          return;
        } else if futures == [] && stream.None? {
          NoneTracked();
          return Ready(Ok(())), limit;
        } else if !madeProgress {
          return Pending, limit;
        }
      }
    }

    lemma SpawnedJoin(a: seq<St>, b: seq<St>, c: seq<St>)
      ensures a + (b + c) == a + b + c
    {
    }

    // The limit in force during a poll.
    ghost predicate LimitOk(limit: nat)
      reads this, limitFn
    {
      && (limitFn != null ==> limitFn.Valid() && (limitFn.blockingOutgoing || limitFn.maxParallel.Some?) && limit > 0)
      && (limitFn != null && limitFn.maxParallel.Some? ==> limit <= limitFn.maxParallel.value)
    }

    // One turn of the loop: an item if there is room, and a poll of every future.
    method Round(limit: nat) returns (madeProgress: bool)
      requires LimitOk(limit) && Running() && WithinLimit()
      modifies this
      ensures LimitOk(limit) && WithinLimit() && old(spawned) <= spawned <= Values(all)
      ensures if error.None? then Running() else futures == [] && stream.None? && Raised(error.value)
      ensures var (pulled, items) := PulledIfRoom(old(Now()), limit, f);
              Now() == Passed(pulled) && spawned == old(spawned) + items
      ensures error.None? ==> (madeProgress <==> Progressed(old(Now()), limit, f))
    {
      madeProgress := false;
      if stream.Some? && (limit == 0 || limit > |futures|) {
        madeProgress := Pull();
      }
      if error.None? {
        var done := PollFutures();
        madeProgress := madeProgress || done;
      }
      if error.Some? {
        futures := [];
        stream := None;
      }
    }

    // One poll of the stream; an item's future is spawned and tracked.
    method Pull() returns (madeProgress: bool)
      requires Running() && stream.Some?
      modifies this
      ensures old(spawned) <= spawned <= Values(all)
      ensures Now() == Pulled(old(Now()), f).0 && spawned == old(spawned) + Pulled(old(Now()), f).1
      ensures madeProgress <==> Pulled(old(Now()), f).1 != []
      ensures error.None? ==> Running()
      ensures error.Some? ==> error == Failure(all) && futures == [] && stream.None?
      ensures stream.Some? ==> |stream.value| < |old(stream).value|
      ensures if madeProgress then |futures| == |old(futures)| + 1 && |spawned| == |old(spawned)| + 1 && stream.Some?
              else spawned == old(spawned) && (futures == old(futures) || futures == [])
    {
      madeProgress := false;
      ghost var before, tracked := spawned, futures;
      SplitFirst(stream.value);
      if stream.value == [] {
        assert before + [] == before;
        stream := None;
        return;
      }
      match stream.value[0] {
        case Item(elem) =>
          madeProgress := true;
          futures := futures + [f(elem)];
          stream := Some(stream.value[1..]);
          spawned := spawned + [elem];
          OneMoreSpawned(before, elem);
          OneMoreTracked(tracked, before, elem);
          assert before + ([elem] + Values(stream.value)) == spawned + Values(stream.value);
        case NotYet =>
          stream := Some(stream.value[1..]);
          assert [] + Values(stream.value) == Values(stream.value);
        case Failed(e) =>
          error := Some(e);
          futures := [];
          stream := None;
      }
    }

    lemma OneMoreSpawned(before: seq<St>, elem: St)
      requires spawned == before + [elem]
      ensures f(elem).error.Some? ==> FromSpawned(f(elem).error.value)
      ensures forall e :: (exists k :: 0 <= k < |before| && f(before[k]).error == Some(e)) ==> FromSpawned(e)
    {
      assert spawned[|before|] == elem;
      forall e | exists k :: 0 <= k < |before| && f(before[k]).error == Some(e)
        ensures FromSpawned(e)
      {
        var k :| 0 <= k < |before| && f(before[k]).error == Some(e);
        assert spawned[k] == before[k];
      }
    }

    lemma OneMoreTracked(tracked: seq<Spawned<E>>, before: seq<St>, elem: St)
      requires spawned == before + [elem] && futures == tracked + [f(elem)]
      requires forall k :: 0 <= k < |before| && f(before[k]).error.Some? ==> ErrorTracked(tracked, f(before[k]).error)
      ensures Covered()
    {
      forall k | 0 <= k < |spawned| && f(spawned[k]).error.Some?
        ensures ErrorTracked(futures, f(spawned[k]).error)
      {
        if k < |before| {
          var j :| 0 <= j < |tracked| && tracked[j].error == f(before[k]).error;
          assert futures[j].error == f(spawned[k]).error;
        } else {
          assert futures[|tracked|].error == f(spawned[k]).error;
        }
      }
    }

    lemma SplitFirst(s: Stream<St, E>)
      ensures s != [] && s[0].Item? ==> Values(s) == [s[0].v] + Values(s[1..])
      ensures s != [] && s[0].NotYet? ==> Values(s) == [] + Values(s[1..])
      ensures s != [] && s[0].Failed? ==> Failure(s) == Some(s[0].e)
    {
    }

    // Polls every tracked future once and keeps those still running.
    method PollFutures() returns (madeProgress: bool)
      requires Running()
      modifies this`futures, this`error
      ensures futures == StillRunning(old(futures)) && error == Observed(old(futures), None)
      ensures if error.None? then Running() else Raised(error.value)
      ensures madeProgress <==> |futures| < |old(futures)|
    {
      var taken := futures;
      futures := [];
      madeProgress := false;
      var i := 0;
      assert taken[..0] == [];
      while i < |taken|
        invariant 0 <= i <= |taken|
        invariant futures == StillRunning(taken[..i]) && error == Observed(taken[..i], None)
        invariant madeProgress <==> |futures| < i
        invariant AllFrom(taken)
        invariant forall k :: 0 <= k < |spawned| && f(spawned[k]).error.Some? ==>
                    ErrorTracked(taken, f(spawned[k]).error)
      {
        assert taken[..i + 1][..i] == taken[..i];
        var fut := taken[i];
        if fut.polls > 0 {
          futures := futures + [Spawned(fut.polls - 1, fut.error)];
        } else {
          if fut.error.Some? {
            error := fut.error;
          }
          madeProgress := true;
        }
        i := i + 1;
      }
      assert taken[..|taken|] == taken;
      PassKeepsSources(taken);
      forall k | error.None? && 0 <= k < |spawned| && f(spawned[k]).error.Some?
        ensures ErrorTracked(futures, f(spawned[k]).error)
      {
        PassForgetsNoError(taken, f(spawned[k]).error);
      }
    }

    lemma {:induction false} PassKeepsSources(fs: seq<Spawned<E>>)
      requires AllFrom(fs)
      ensures AllFrom(StillRunning(fs))
      ensures Observed(fs, None).Some? ==> FromSpawned(Observed(fs, None).value)
    {
      if fs != [] {
        var n := |fs| - 1;
        assert forall k :: 0 <= k < n ==> fs[..n][k] == fs[k];
        PassKeepsSources(fs[..n]);
      }
    }
  }
}
