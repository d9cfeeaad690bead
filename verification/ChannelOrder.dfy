/** What goes into a channel comes out of it, in order, and a unique channel holds no value twice. */
module ChannelOrder {
  import opened Wrappers
  import opened ChannelStates

  // The values a step puts into the queue: those of a send that is neither refused nor a duplicate.
  ghost function Accepted<V>(s: State<V>, op: Op<V>, hash: V -> nat): seq<V> {
    match op
    case ForceSend(_, v) => if IsQueued(s, v, hash) then [] else [v]
    case TrySend(_, v) =>
      if Live(s.receivers) > 0 && |s.queue| < s.limit.n && !IsQueued(s, v, hash) then [v] else []
    case _ => []
  }

  // A unique channel holds a value of the same hash.
  ghost predicate IsQueued<V>(s: State<V>, v: V, hash: V -> nat) {
    s.seen.Some? && exists k :: 0 <= k < |s.queue| && hash(s.queue[k]) == hash(v)
  }

  function Given<V>(r: Poll<Option<V>>): seq<V> {
    match r
    case Ready(Some(v)) => [v]
    case _ => []
  }

  // A step and the values its poll, if it is one, returns.
  ghost predicate Gives<V(!new)>(s: State<V>, op: Op<V>, hash: V -> nat, after: State<V>, out: seq<V>) {
    && StepBy(s, op, hash, after)
    && if op.PollNext? then exists r :: PollsNext(s, op.i, hash, after, r) && out == Given(r) else out == []
  }

  // The set of a unique channel holds the hashes of what is queued, each of one value.
  ghost predicate SetIsQueue<V>(s: State<V>, hash: V -> nat) {
    s.seen.Some? ==>
      && (forall h :: h in s.seen.value <==> exists k :: 0 <= k < |s.queue| && hash(s.queue[k]) == h)
      && NoneTwice(s.queue, hash)
  }

  ghost predicate NoneTwice<V>(queue: seq<V>, hash: V -> nat) {
    forall j, k :: 0 <= j < k < |queue| ==> hash(queue[j]) != hash(queue[k])
  }

  lemma SendKeepsSet<V(!new)>(s: State<V>, v: V, hash: V -> nat, after: State<V>)
    requires Sends(s, v, hash, after) && SetIsQueue(s, hash)
    ensures SetIsQueue(after, hash)
    ensures after.queue == s.queue + if IsQueued(s, v, hash) then [] else [v]
  {
    if s.seen.Some? && hash(v) !in s.seen.value {
      var q := after.queue;
      assert q[|s.queue|] == v;
      forall h
        ensures h in after.seen.value <==> exists k :: 0 <= k < |q| && hash(q[k]) == h
      {
        if h in s.seen.value {
          var k :| 0 <= k < |s.queue| && hash(s.queue[k]) == h;
          assert q[k] == s.queue[k];
        }
        if k :| 0 <= k < |s.queue| && hash(q[k]) == h {
          assert q[k] == s.queue[k];
        }
      }
    }
  }

  lemma ReceiveKeepsSet<V(!new)>(s: State<V>, hash: V -> nat, after: State<V>)
    requires s.queue != [] && Receives(s, hash, after) && SetIsQueue(s, hash)
    ensures SetIsQueue(after, hash)
    ensures s.queue == [s.queue[0]] + after.queue
  {
    if s.seen.Some? {
      var q := s.queue;
      forall h
        ensures h in after.seen.value <==> exists k :: 0 <= k < |after.queue| && hash(after.queue[k]) == h
      {
        if h in after.seen.value {
          var k :| 0 <= k < |q| && hash(q[k]) == h;
          assert after.queue[k - 1] == q[k];
        }
        if k :| 0 <= k < |after.queue| && hash(after.queue[k]) == h {
          assert q[k + 1] == after.queue[k];
        }
      }
    }
  }

  // What was queued, and then what is put in, is what comes out, and then what is queued.
  lemma StepInOrder<V(!new)>(s: State<V>, op: Op<V>, hash: V -> nat, after: State<V>, out: seq<V>)
    requires Gives(s, op, hash, after, out) && SetIsQueue(s, hash)
    ensures SetIsQueue(after, hash)
    ensures s.queue + Accepted(s, op, hash) == out + after.queue
  {
    match op
    case ForceSend(_, v) => SendKeepsSet(s, v, hash, after);
    case TrySend(_, v) =>
      if Live(s.receivers) > 0 && |s.queue| < s.limit.n {
        SendKeepsSet(s, v, hash, after);
      }
    case PollNext(i) =>
      if s.receivers[i] != Waiting && s.queue != [] {
        ReceiveKeepsSet(s.(receivers := s.receivers[i := Idle]), hash, after);
      }
    case _ =>
  }

  // ---------- whole runs ----------

  // The values that polls return along a run.
  ghost predicate RunGives<V(!new)>(states: seq<State<V>>, ops: seq<Op<V>>, hash: V -> nat, outs: seq<seq<V>>) {
    && IsRun(states, ops, hash) && |outs| == |ops|
    && forall k :: 0 <= k < |ops| ==> Gives(states[k], ops[k], hash, states[k + 1], outs[k])
  }

  ghost function AllAccepted<V>(states: seq<State<V>>, ops: seq<Op<V>>, hash: V -> nat, n: nat): seq<V>
    requires n <= |ops| <= |states|
  {
    if n == 0 then [] else AllAccepted(states, ops, hash, n - 1) + Accepted(states[n - 1], ops[n - 1], hash)
  }

  function AllGiven<V>(outs: seq<seq<V>>, n: nat): seq<V>
    requires n <= |outs|
  {
    if n == 0 then [] else AllGiven(outs, n - 1) + outs[n - 1]
  }

  // Every run returns some values from its polls.
  lemma {:induction false} RunsGive<V(!new)>(states: seq<State<V>>, ops: seq<Op<V>>, hash: V -> nat, n: nat)
    returns (outs: seq<seq<V>>)
    requires IsRun(states, ops, hash) && n <= |ops|
    ensures |outs| == n && forall k :: 0 <= k < n ==> Gives(states[k], ops[k], hash, states[k + 1], outs[k])
  {
    if n == 0 {
      outs := [];
    } else {
      outs := RunsGive(states, ops, hash, n - 1);
      var k := n - 1;
      var out: seq<V> := [];
      if ops[k].PollNext? {
        var r :| PollsNext(states[k], ops[k].i, hash, states[n], r);
        out := Given(r);
      }
      assert Gives(states[k], ops[k], hash, states[n], out);
      outs := outs + [out];
    }
  }

  // The values accepted are those returned and then those still queued.
  ghost predicate InOrder<V>(s: State<V>, hash: V -> nat, accepted: seq<V>, given: seq<V>) {
    accepted == given + s.queue && SetIsQueue(s, hash)
  }

  // Main result: at every point of every run, the values accepted so far are those returned so far and then those
  // still queued, in order; and a unique channel holds no two values of one hash.
  lemma {:induction false} RunsInOrder<V(!new)>(
    states: seq<State<V>>, ops: seq<Op<V>>, hash: V -> nat, outs: seq<seq<V>>, n: nat)
    requires RunGives(states, ops, hash, outs) && n <= |ops|
    ensures InOrder(states[n], hash, AllAccepted(states, ops, hash, n), AllGiven(outs, n))
  {
    if n == 0 {
      RunBeginsEmpty(states, ops, hash);
    } else {
      RunsInOrder(states, ops, hash, outs, n - 1);
      OneMoreInOrder(states[n - 1], ops[n - 1], hash, states[n], outs[n - 1],
                     AllAccepted(states, ops, hash, n - 1), AllGiven(outs, n - 1));
    }
  }

  // A poll that finds the end finds nothing queued and nobody to send: everything accepted has been returned.
  lemma EndMeansAllGiven<V(!new)>(
    states: seq<State<V>>, ops: seq<Op<V>>, hash: V -> nat, outs: seq<seq<V>>, n: nat)
    requires RunGives(states, ops, hash, outs) && n < |ops| && ops[n].PollNext?
    requires PollsNext(states[n], ops[n].i, hash, states[n + 1], Ready(None))
    ensures AllAccepted(states, ops, hash, n) == AllGiven(outs, n) && Live(states[n].senders) == 0
  {
    RunsInOrder(states, ops, hash, outs, n);
    assert AllGiven(outs, n) + [] == AllGiven(outs, n);
  }

  lemma OneMoreInOrder<V(!new)>(
    s: State<V>, op: Op<V>, hash: V -> nat, after: State<V>, out: seq<V>, accepted: seq<V>, given: seq<V>)
    requires Gives(s, op, hash, after, out) && InOrder(s, hash, accepted, given)
    ensures InOrder(after, hash, accepted + Accepted(s, op, hash), given + out)
  {
    StepInOrder(s, op, hash, after, out);
    Shifts(given, s.queue, Accepted(s, op, hash), out, after.queue);
  }

  lemma RunBeginsEmpty<V(!new)>(states: seq<State<V>>, ops: seq<Op<V>>, hash: V -> nat)
    requires IsRun(states, ops, hash)
    ensures states[0].queue == [] && SetIsQueue(states[0], hash)
  {
  }

  lemma Shifts<V>(given: seq<V>, queue: seq<V>, more: seq<V>, out: seq<V>, left: seq<V>)
    requires queue + more == out + left
    ensures given + queue + more == given + out + left
  {
    assert given + queue + more == given + (queue + more);
  }

  // ---------- the limit ----------

  // What a sender's poll announces is what a send then finds: room, no room, or nobody to receive.
  lemma PollAnnounces<V(!new)>(s: State<V>, i: nat, v: V, hash: V -> nat, after: State<V>, r: Poll<bool>)
    requires Alive(s.senders, i) && PollsReady(s, i, after, r)
    ensures r == Ready(true) ==> forall next, sent :: TriesSend(after, v, hash, next, sent) ==> sent == Success
    ensures r == Ready(false) ==> forall next, sent :: TriesSend(after, v, hash, next, sent) ==> sent == Closed(v)
    ensures r == Pending && s.senders[i] != Waiting ==>
              forall next, sent :: TriesSend(after, v, hash, next, sent) ==> sent == Full(v)
  {
  }

  // Main result: without sends that are forced, the queue never holds more than its limit.
  lemma {:induction false} QueueWithinLimit<V(!new)>(
    states: seq<State<V>>, ops: seq<Op<V>>, hash: V -> nat, n: nat)
    requires IsRun(states, ops, hash) && n <= |ops| && forall k :: 0 <= k < n ==> !ops[k].ForceSend?
    ensures |states[n].queue| <= states[n].limit.n
  {
    if n > 0 {
      QueueWithinLimit(states, ops, hash, n - 1);
      StepWithinLimit(states[n - 1], ops[n - 1], hash, states[n]);
    }
  }

  lemma StepWithinLimit<V(!new)>(s: State<V>, op: Op<V>, hash: V -> nat, after: State<V>)
    requires StepBy(s, op, hash, after) && !op.ForceSend? && |s.queue| <= s.limit.n
    ensures |after.queue| <= after.limit.n
  {
  }
}
