/** How the soft limit moves in every run, and runs that show how tight the results about the channel are. */
module ChannelGrowth {
  import opened Wrappers
  import opened ChannelStates
  import opened ChannelProperties

  // The receives needed for a limit that starts at `start` to have grown `g` times.
  function Needed(start: nat, g: nat): nat {
    if g == 0 then 0 else Needed(start, g - 1) + start + (g - 1)
  }

  lemma {:induction false} NeededIsQuadratic(start: nat, g: nat)
    ensures 2 * Needed(start, g) == 2 * g * start + g * (g - 1)
  {
    if g > 0 {
      NeededIsQuadratic(start, g - 1);
    }
  }

  // While the flag is up, what has been received since the queue was full counts towards the next step.
  ghost predicate GrowthPaid<V>(s: State<V>, start: nat) {
    && s.limit.Dynamic? && s.limit.n >= start
    && s.received >= Needed(start, s.limit.n - start)
                     + (if s.hasMaxed && |s.queue| < s.limit.n then s.limit.n - |s.queue| else 0)
  }

  lemma ReceivePays<V>(s: State<V>, hash: V -> nat, after: State<V>, start: nat)
    requires s.queue != [] && Receives(s, hash, after) && GrowthPaid(s, start)
    ensures GrowthPaid(after, start)
  {
  }

  lemma StepPays<V(!new)>(s: State<V>, op: Op<V>, hash: V -> nat, after: State<V>, start: nat)
    requires StepBy(s, op, hash, after)
    ensures GrowthPaid(s, start) ==> GrowthPaid(after, start)
    ensures s.limit.Static? ==> after.limit == s.limit
    ensures s.limit.n < 2 && !s.hasMaxed ==> after.limit == s.limit && !after.hasMaxed
    ensures after.limit.n >= s.limit.n
  {
    if op.PollNext? && s.receivers[op.i] != Waiting && s.queue != [] && GrowthPaid(s, start) {
      ReceivePays(s.(receivers := s.receivers[op.i := Idle]), hash, after, start);
    }
  }

  // Main result: a limit grows only for a queue that was full and was then emptied, so g steps from `start`
  // have cost at least g * start + g * (g - 1) / 2 receives. A limit below 2, or a static one, stays.
  lemma {:induction false} GrowthIsQuadratic<V(!new)>(states: seq<State<V>>, ops: seq<Op<V>>, hash: V -> nat, n: nat)
    requires IsRun(states, ops, hash) && n <= |ops|
    ensures var start, g := states[0].limit.n, states[n].limit.n - states[0].limit.n;
            && g >= 0
            && (states[0].limit.Dynamic? ==> 2 * states[n].received >= 2 * g * start + g * (g - 1))
            && (states[0].limit.Static? || start < 2 ==> states[n].limit == states[0].limit)
  {
    var start := states[0].limit.n;
    LimitsOverRuns(states, ops, hash, n);
    NeededIsQuadratic(start, states[n].limit.n - start);
  }

  lemma {:induction false} LimitsOverRuns<V(!new)>(states: seq<State<V>>, ops: seq<Op<V>>, hash: V -> nat, n: nat)
    requires IsRun(states, ops, hash) && n <= |ops|
    ensures states[0].limit.n <= states[n].limit.n
    ensures states[0].limit.Dynamic? ==> GrowthPaid(states[n], states[0].limit.n)
    ensures states[0].limit.Static? ==> states[n].limit == states[0].limit
    ensures states[0].limit.n < 2 ==> states[n].limit == states[0].limit && !states[n].hasMaxed
  {
    if n > 0 {
      LimitsOverRuns(states, ops, hash, n - 1);
      StepPays(states[n - 1], ops[n - 1], hash, states[n], states[0].limit.n);
    }
  }

  // ---------- runs that exist ----------

  ghost predicate Reaches<V(!new)>(limit: Limit, s: State<V>, hash: V -> nat) {
    exists states: seq<State<V>>, ops: seq<Op<V>> ::
      IsRun(states, ops, hash) && states[0] == Initial(limit, false) && states[|ops|] == s
  }

  lemma ReachesInitially<V(!new)>(limit: Limit, hash: V -> nat)
    ensures Reaches(limit, Initial<V>(limit, false), hash)
  {
    var s := Initial<V>(limit, false);
    var ops: seq<Op<V>> := [];
    assert IsRun([s], ops, hash);
    assert [s][|ops|] == s;
  }

  lemma ReachesNext<V(!new)>(limit: Limit, s: State<V>, op: Op<V>, after: State<V>, hash: V -> nat)
    requires Reaches(limit, s, hash) && StepBy(s, op, hash, after)
    ensures Reaches(limit, after, hash)
  {
    var states, ops :|
      IsRun(states, ops, hash) && states[0] == Initial(limit, false) && states[|ops|] == s;
    var states', ops' := states + [after], ops + [op];
    forall k | 0 <= k < |ops'|
      ensures StepBy(states'[k], ops'[k], hash, states'[k + 1])
    {
    }
    assert states'[0] == Initial(limit, false);
    assert IsRun(states', ops', hash) && states'[|ops'|] == after;
  }

  function Copies<V>(v: V, k: nat): (r: seq<V>)
    ensures |r| == k
  {
    if k == 0 then [] else Copies(v, k - 1) + [v]
  }

  lemma {:induction false} CopiesAreEqual<V>(v: V, k: nat)
    ensures forall i :: 0 <= i < k ==> Copies(v, k)[i] == v
  {
    if k > 0 {
      CopiesAreEqual(v, k - 1);
    }
  }

  // One sender and one receiver that never had to wait.
  function At<V>(v: V, len: nat, hasMaxed: bool, n: nat, received: nat): State<V> {
    State(Copies(v, len), hasMaxed, Dynamic(n), None, [Idle], [Idle], received)
  }

  lemma {:induction false} Filling<V(!new)>(start: nat, v: V, k: nat, n: nat, received: nat, hash: V -> nat)
    requires k <= n && Reaches(Dynamic(start), At(v, 0, false, n, received), hash)
    ensures Reaches(Dynamic(start), At(v, k, false, n, received), hash)
  {
    if k > 0 {
      Filling(start, v, k - 1, n, received, hash);
      var s, after := At(v, k - 1, false, n, received), At(v, k, false, n, received);
      LiveIsZero([Idle]);
      assert [Idle][0] != Dropped;
      assert TriesSend(s, v, hash, after, Success);
      ReachesNext(Dynamic(start), s, TrySend(0, v), after, hash);
    }
  }

  lemma TakingOne<V(!new)>(start: nat, v: V, len: nat, hasMaxed: bool, n: nat, received: nat, hash: V -> nat)
    requires len > 0 && Reaches(Dynamic(start), At(v, len, hasMaxed, n, received), hash)
    ensures var (limit, flag) := LimitAfter(Dynamic(n), hasMaxed, len - 1);
            Reaches(Dynamic(start), At(v, len - 1, flag, limit.n, received + 1), hash)
  {
    var s := At(v, len, hasMaxed, n, received);
    var (limit, flag) := LimitAfter(Dynamic(n), hasMaxed, len - 1);
    var after := At(v, len - 1, flag, limit.n, received + 1);
    CopiesAreEqual(v, len);
    CopiesAreEqual(v, len - 1);
    assert s.queue[1..] == after.queue;
    assert s.receivers[0 := Idle] == s.receivers;
    assert PollsNext(s, 0, hash, after, Ready(Some(v)));
    ReachesNext(Dynamic(start), s, PollNext(0), after, hash);
  }

  lemma {:induction false} Draining<V(!new)>(start: nat, v: V, len: nat, n: nat, received: nat, hash: V -> nat)
    requires 1 <= len < n && Reaches(Dynamic(start), At(v, len, true, n, received), hash)
    ensures Reaches(Dynamic(start), At(v, 0, false, n + 1, received + len), hash)
  {
    TakingOne(start, v, len, true, n, received, hash);
    if len > 1 {
      Draining(start, v, len - 1, n, received + 1, hash);
    }
  }

  // One sender and one receiver can empty the channel with its limit grown to `n` by so many receives.
  ghost predicate CanGrow<V(!new)>(start: nat, v: V, n: nat, received: nat, hash: V -> nat) {
    Reaches(Dynamic(start), At(v, 0, false, n, received), hash)
  }

  // The bound on receives is attained: fill, drain, and the limit has grown, as often as wanted.
  lemma {:induction false} GrowthIsAttained<V(!new)>(start: nat, g: nat, v: V, hash: V -> nat)
    requires start >= 2
    ensures CanGrow(start, v, start + g, Needed(start, g), hash)
  {
    if g == 0 {
      NoGrowth(start, v, hash);
    } else {
      GrowthIsAttained(start, g - 1, v, hash);
      var n, received := start + g - 1, Needed(start, g - 1);
      OneGrowth(start, v, n, received, hash);
      assert n + 1 == start + g && received + n == Needed(start, g);
    }
  }

  lemma NoGrowth<V(!new)>(start: nat, v: V, hash: V -> nat)
    ensures CanGrow(start, v, start, 0, hash)
  {
    ReachesInitially<V>(Dynamic(start), hash);
    assert At(v, 0, false, start, 0) == Initial(Dynamic(start), false);
  }

  lemma OneGrowth<V(!new)>(start: nat, v: V, n: nat, received: nat, hash: V -> nat)
    requires n >= 2 && CanGrow(start, v, n, received, hash)
    ensures CanGrow(start, v, n + 1, received + n, hash)
  {
    Filling(start, v, n, n, received, hash);
    TakingOne(start, v, n, false, n, received, hash);
    Draining(start, v, n - 1, n, received + 1, hash);
  }

  // ---------- what the wake-up results leave open ----------

  // Scenes with one sender, for a channel that is not unique.
  function Scene<V>(queue: seq<V>, hasMaxed: bool, receivers: seq<Handle>, received: nat): State<V> {
    State(queue, hasMaxed, Static(2), None, [Idle], receivers, received)
  }

  lemma Parking<V(!new)>(receivers: seq<Handle>, i: nat, hash: V -> nat)
    requires Reaches(Static(2), Scene<V>([], false, receivers, 0), hash)
    requires Alive(receivers, i) && receivers[i] != Waiting
    ensures Reaches(Static(2), Scene<V>([], false, receivers[i := Waiting], 0), hash)
  {
    var s, after := Scene<V>([], false, receivers, 0), Scene<V>([], false, receivers[i := Waiting], 0);
    LiveIsZero([Idle]);
    assert [Idle][0] != Dropped;
    assert PollsNext(s, i, hash, after, Pending);
    ReachesNext(Static(2), s, PollNext(i), after, hash);
  }

  lemma Sending<V(!new)>(v: V, queue: seq<V>, receivers: seq<Handle>, after: seq<Handle>, hash: V -> nat)
    requires Reaches(Static(2), Scene(queue, false, receivers, 0), hash) && NotifiesOne(receivers, after)
    ensures Reaches(Static(2), Scene(queue + [v], false, after, 0), hash)
  {
    ReachesNext(Static(2), Scene(queue, false, receivers, 0), ForceSend(0, v),
                Scene(queue + [v], false, after, 0), hash);
  }

  // Two receivers park, two items come; only the first send has anybody to notify.
  lemma TwoParkedTwoSent<V(!new)>(v: V, hash: V -> nat)
    ensures Reaches(Static(2), Scene([v, v], false, [Notified, Waiting], 0), hash)
  {
    var s := Initial<V>(Static(2), false);
    ReachesInitially<V>(Static(2), hash);
    assert [Idle] + [Idle] == [Idle, Idle];
    ReachesNext(Static(2), s, CloneReceiver(0), Scene([], false, [Idle, Idle], 0), hash);
    Parking<V>([Idle, Idle], 0, hash);
    assert [Idle, Idle][0 := Waiting] == [Waiting, Idle];
    Parking<V>([Waiting, Idle], 1, hash);
    assert [Waiting, Idle][1 := Waiting] == [Waiting, Waiting];
    assert [Notified, Waiting][0] == Notified;
    Sending(v, [], [Waiting, Waiting], [Notified, Waiting], hash);
    assert [] + [v] == [v];
    Sending(v, [v], [Notified, Waiting], [Notified, Waiting], hash);
  }

  // The receiver that took an item is dropped: the other stays parked beside the item still queued.
  lemma DroppedReceiverStrands<V(!new)>(v: V, hash: V -> nat)
    ensures exists s: State<V> :: Reaches(Static(2), s, hash) && !ReceiversAwake(s) && Live(s.senders) > 0
  {
    TwoParkedTwoSent(v, hash);
    var before, taken := Scene([v, v], false, [Notified, Waiting], 0), Scene([v], true, [Idle, Waiting], 1);
    var dropped := Scene([v], true, [Dropped, Waiting], 1);
    assert [v, v][1..] == [v] && [Notified, Waiting][0 := Idle] == [Idle, Waiting];
    assert PollsNext(before, 0, hash, taken, Ready(Some(v)));
    ReachesNext(Static(2), before, PollNext(0), taken, hash);
    assert [Idle, Waiting][0 := Dropped] == [Dropped, Waiting];
    LiveIsZero(dropped.receivers);
    LiveIsZero(dropped.senders);
    assert dropped.receivers[1] == Waiting && dropped.senders[0] == Idle;
    ReachesNext(Static(2), taken, DropReceiver(0), dropped, hash);
  }

  // A poll that is not atomic: the queue is found empty, an item is sent while nobody listens yet, and only
  // then is the listener made, after which the poll returns without looking again.
  lemma SplitPollMissesAnItem<V(!new)>(v: V, hash: V -> nat)
    ensures var found := Initial<V>(Static(2), false);
            var sent := found.(queue := [v]);
            var parked := sent.(receivers := [Waiting]);
            && PollsNext(found, 0, hash, found.(receivers := [Waiting]), Pending)
            && Sends(found, v, hash, sent)
            && ReceiversAwake(sent) && !ReceiversAwake(parked)
  {
    var found := Initial<V>(Static(2), false);
    LiveIsZero([Idle]);
    LiveIsZero([Waiting]);
    assert [Idle][0] != Dropped && [Waiting][0] != Dropped;
    assert found.receivers[0 := Waiting] == [Waiting];
  }

  // A limit of 0 never lets a sender through: both sides park.
  lemma ZeroLimitDeadlocks<V(!new)>(hash: V -> nat)
    ensures exists s: State<V> :: Reaches(Static(0), s, hash) && !SomeAwake(s.receivers) && !SomeAwake(s.senders)
  {
    var s0 := Initial<V>(Static(0), false);
    var s1 := s0.(receivers := [Waiting]);
    var s2 := s1.(senders := [Waiting]);
    ReachesInitially<V>(Static(0), hash);
    LiveIsZero([Idle]);
    LiveIsZero([Waiting]);
    assert [Idle][0] != Dropped && [Waiting][0] != Dropped;
    assert s0.receivers[0 := Waiting] == s1.receivers && s0.senders[0 := Waiting] == s2.senders;
    assert PollsNext(s0, 0, hash, s1, Pending);
    ReachesNext(Static(0), s0, PollNext(0), s1, hash);
    assert PollsReady(s1, 0, s2, Pending);
    ReachesNext(Static(0), s1, PollReady(0), s2, hash);
  }
}
