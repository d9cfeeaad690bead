/** What holds in every run of the channel: nobody sleeps through work, and the limit grows slowly. */
module ChannelProperties {
  import opened ChannelStates

  // ---------- wake-ups ----------

  // Some live handle is not parked.
  ghost predicate SomeAwake(hs: seq<Handle>) {
    exists k :: 0 <= k < |hs| && (hs[k] == Idle || hs[k] == Notified)
  }

  ghost predicate NoneWaiting(hs: seq<Handle>) {
    forall k :: 0 <= k < |hs| ==> hs[k] != Waiting
  }

  // Items in the queue: not all receivers are parked.
  ghost predicate ReceiversAwake<V>(s: State<V>) {
    s.queue != [] && Live(s.receivers) > 0 ==> SomeAwake(s.receivers)
  }

  // Room in the queue: not all senders are parked.
  ghost predicate SendersAwake<V>(s: State<V>) {
    |s.queue| < s.limit.n && Live(s.senders) > 0 ==> SomeAwake(s.senders)
  }

  // One side gone: nobody on the other side is parked.
  ghost predicate ClosingWakes<V>(s: State<V>) {
    && (Live(s.senders) == 0 ==> NoneWaiting(s.receivers))
    && (Live(s.receivers) == 0 ==> NoneWaiting(s.senders))
  }

  // The flag is up only between a full queue and the next empty one.
  ghost predicate FlagMeaning<V>(s: State<V>) {
    s.hasMaxed ==> s.limit.n >= 2
  }

  lemma NotifyingKeeps(hs: seq<Handle>, after: seq<Handle>)
    requires NotifiesOne(hs, after)
    ensures Live(after) == Live(hs)
    ensures NoneWaiting(hs) ==> NoneWaiting(after)
    ensures SomeAwake(hs) ==> SomeAwake(after)
    ensures Live(hs) > 0 ==> SomeAwake(after)
  {
    LiveDependsOnDropped(hs, after);
    LiveIsZero(hs);
    if SomeAwake(hs) {
      var k :| 0 <= k < |hs| && (hs[k] == Idle || hs[k] == Notified);
      assert after[k] == hs[k];
    }
    if Live(hs) > 0 {
      var k :| 0 <= k < |hs| && hs[k] != Dropped;
      assert hs[k] == Idle || Listening(hs[k]);
      assert hs[k] == Idle ==> after[k] == Idle;
    }
  }

  lemma ReplacingKeeps(hs: seq<Handle>, i: nat, h: Handle)
    requires Alive(hs, i) && h != Dropped
    ensures Live(hs[i := h]) == Live(hs)
    ensures h != Waiting && NoneWaiting(hs) ==> NoneWaiting(hs[i := h])
    ensures h != Waiting ==> SomeAwake(hs[i := h])
  {
    LiveDependsOnDropped(hs, hs[i := h]);
    assert hs[i := h][i] == h;
  }

  lemma CloningKeeps(hs: seq<Handle>, i: nat)
    requires Alive(hs, i)
    ensures Live(hs + [Idle]) == Live(hs) + 1 && Live(hs) > 0
    ensures NoneWaiting(hs) ==> NoneWaiting(hs + [Idle])
    ensures SomeAwake(hs + [Idle])
  {
    assert (hs + [Idle])[..|hs + [Idle]| - 1] == hs;
    assert (hs + [Idle])[|hs|] == Idle;
    LiveIsZero(hs);
  }

  lemma LeavingKeeps(hs: seq<Handle>, i: nat, after: seq<Handle>)
    requires Alive(hs, i) && Leaves(hs, i, after)
    ensures |after| == |hs| && Live(after) == Live(hs) - 1
    ensures NoneWaiting(hs) ==> NoneWaiting(after)
  {
    LiveAfterDrop(hs, i);
    if after != hs[i := Dropped] {
      NotifyingKeeps(hs[i := Dropped], after);
    }
  }

  lemma AllNotifiedKeeps(hs: seq<Handle>)
    ensures Live(AllNotified(hs)) == Live(hs)
    ensures NoneWaiting(AllNotified(hs))
    ensures SomeAwake(hs) ==> SomeAwake(AllNotified(hs))
  {
    LiveDependsOnDropped(hs, AllNotified(hs));
    if SomeAwake(hs) {
      var k :| 0 <= k < |hs| && (hs[k] == Idle || hs[k] == Notified);
      assert AllNotified(hs)[k] == hs[k];
    }
  }

  lemma SendKeeps<V(!new)>(s: State<V>, v: V, hash: V -> nat, after: State<V>)
    requires Sends(s, v, hash, after)
    ensures ReceiversAwake(s) ==> ReceiversAwake(after)
    ensures SendersAwake(s) ==> SendersAwake(after)
    ensures ClosingWakes(s) ==> ClosingWakes(after)
    ensures FlagMeaning(s) ==> FlagMeaning(after)
  {
    if Accepts(s, v, hash) {
      NotifyingKeeps(s.receivers, after.receivers);
    }
  }

  lemma ReceiveKeeps<V(!new)>(s: State<V>, hash: V -> nat, after: State<V>)
    requires s.queue != [] && Receives(s, hash, after) && FlagMeaning(s)
    ensures SomeAwake(s.receivers) ==> SomeAwake(after.receivers)
    ensures SendersAwake(s) ==> SendersAwake(after)
    ensures ClosingWakes(s) ==> ClosingWakes(after)
    ensures FlagMeaning(after)
  {
    if |s.queue[1..]| < s.limit.n {
      NotifyingKeeps(s.senders, after.senders);
    }
  }

  // The notification of a dropped handle has been passed on.
  ghost predicate PassedOn(hs: seq<Handle>, i: nat, after: seq<Handle>)
    requires Alive(hs, i)
  {
    hs[i] == Notified && NotifiesOne(hs[i := Dropped], after)
  }

  // A step that takes no receiver (sender) away, except one whose notification is passed on.
  ghost predicate KeepsReceivers<V>(s: State<V>, op: Op<V>, after: State<V>) {
    op.DropReceiver? ==> Alive(s.receivers, op.i) && PassedOn(s.receivers, op.i, after.receivers)
  }

  ghost predicate KeepsSenders<V>(s: State<V>, op: Op<V>, after: State<V>) {
    op.DropSender? ==> Alive(s.senders, op.i) && PassedOn(s.senders, op.i, after.senders)
  }

  // Every step keeps all of it, except that dropping a handle may strand the others on its side, unless it
  // passes on a notification.
  lemma StepKeeps<V(!new)>(s: State<V>, op: Op<V>, hash: V -> nat, after: State<V>)
    requires StepBy(s, op, hash, after) && FlagMeaning(s)
    ensures FlagMeaning(after)
    ensures ClosingWakes(s) ==> ClosingWakes(after)
    ensures ReceiversAwake(s) && KeepsReceivers(s, op, after) ==> ReceiversAwake(after)
    ensures SendersAwake(s) && KeepsSenders(s, op, after) ==> SendersAwake(after)
  {
    match op
    case ForceSend(_, v) => SendKeeps(s, v, hash, after);
    case TrySend(_, v) =>
      if Live(s.receivers) > 0 && |s.queue| < s.limit.n {
        SendKeeps(s, v, hash, after);
      }
    case PollNext(i) => PollNextKeeps(s, i, hash, after);
    case PollReady(i) => PollReadyKeeps(s, i, after);
    case CloneSender(i) => CloningKeeps(s.senders, i);
    case CloneReceiver(i) => CloningKeeps(s.receivers, i);
    case DropSender(i) =>
      LeavingKeeps(s.senders, i, after.senders);
      if PassedOn(s.senders, i, after.senders) {
        NotifyingKeeps(s.senders[i := Dropped], after.senders);
      }
      AllNotifiedKeeps(s.receivers);
    case DropReceiver(i) =>
      LeavingKeeps(s.receivers, i, after.receivers);
      if PassedOn(s.receivers, i, after.receivers) {
        NotifyingKeeps(s.receivers[i := Dropped], after.receivers);
      }
      AllNotifiedKeeps(s.senders);
  }

  lemma PollNextKeeps<V(!new)>(s: State<V>, i: nat, hash: V -> nat, after: State<V>)
    requires StepBy(s, PollNext(i), hash, after) && FlagMeaning(s)
    ensures FlagMeaning(after)
    ensures ClosingWakes(s) ==> ClosingWakes(after)
    ensures ReceiversAwake(s) ==> ReceiversAwake(after)
    ensures SendersAwake(s) ==> SendersAwake(after)
  {
    if s.receivers[i] != Waiting {
      ReplacingKeeps(s.receivers, i, Idle);
      ReplacingKeeps(s.receivers, i, Waiting);
      LiveIsZero(s.receivers);
      if s.queue != [] {
        ReceiveKeeps(s.(receivers := s.receivers[i := Idle]), hash, after);
      }
    }
  }

  lemma PollReadyKeeps<V(!new)>(s: State<V>, i: nat, after: State<V>)
    requires exists hash: V -> nat :: StepBy(s, PollReady(i), hash, after)
    ensures s.hasMaxed == after.hasMaxed && s.limit == after.limit
    ensures ClosingWakes(s) ==> ClosingWakes(after)
    ensures ReceiversAwake(s) ==> ReceiversAwake(after)
    ensures SendersAwake(s) ==> SendersAwake(after)
  {
    ReplacingKeeps(s.senders, i, Idle);
    ReplacingKeeps(s.senders, i, Waiting);
    LiveIsZero(s.senders);
  }

  // The handles other than `i` include a live one, and all of them are parked.
  ghost predicate OthersParked(hs: seq<Handle>, i: nat) {
    && (exists j :: 0 <= j < |hs| && j != i && hs[j] != Dropped)
    && forall j :: 0 <= j < |hs| && j != i ==> hs[j] in {Dropped, Waiting}
  }

  lemma LeftAsleep(hs: seq<Handle>, i: nat)
    requires Alive(hs, i)
    ensures Live(hs[i := Dropped]) > 0 && !SomeAwake(hs[i := Dropped]) <==> OthersParked(hs, i)
  {
    var left := hs[i := Dropped];
    LiveIsZero(left);
    forall j | 0 <= j < |left| && j != i
      ensures left[j] == hs[j]
    {
    }
  }

  // Exactly when dropping a receiver strands the others: work is left, all of them are parked, and the drop
  // passes no notification on, which only a handle that has been notified can do.
  lemma DropStrandsExactly<V(!new)>(s: State<V>, i: nat, hash: V -> nat, after: State<V>)
    requires StepBy(s, DropReceiver(i), hash, after)
    ensures !ReceiversAwake(after) <==>
              s.queue != [] && OthersParked(s.receivers, i) && !PassedOn(s.receivers, i, after.receivers)
    ensures s.receivers[i] != Notified ==>
              (!ReceiversAwake(after) <==> s.queue != [] && OthersParked(s.receivers, i))
  {
    LeftAsleep(s.receivers, i);
    if PassedOn(s.receivers, i, after.receivers) {
      NotifyingKeeps(s.receivers[i := Dropped], after.receivers);
    }
  }

  lemma SenderDropStrandsExactly<V(!new)>(s: State<V>, i: nat, hash: V -> nat, after: State<V>)
    requires StepBy(s, DropSender(i), hash, after)
    ensures !SendersAwake(after) <==>
              |s.queue| < s.limit.n && OthersParked(s.senders, i) && !PassedOn(s.senders, i, after.senders)
    ensures s.senders[i] != Notified ==>
              (!SendersAwake(after) <==> |s.queue| < s.limit.n && OthersParked(s.senders, i))
  {
    LeftAsleep(s.senders, i);
    if PassedOn(s.senders, i, after.senders) {
      NotifyingKeeps(s.senders[i := Dropped], after.senders);
    }
  }

  // Main result: over every run, as long as no receiver (sender) has been dropped without passing a
  // notification on, items (room) never find all receivers (senders) parked; and closing one side leaves
  // nobody parked on the other.
  lemma {:induction false} RunsStayAwake<V(!new)>(states: seq<State<V>>, ops: seq<Op<V>>, hash: V -> nat, n: nat)
    requires IsRun(states, ops, hash) && n <= |ops|
    ensures FlagMeaning(states[n]) && ClosingWakes(states[n])
    ensures (forall k :: 0 <= k < n ==> KeepsReceivers(states[k], ops[k], states[k + 1])) ==> ReceiversAwake(states[n])
    ensures (forall k :: 0 <= k < n ==> KeepsSenders(states[k], ops[k], states[k + 1])) ==> SendersAwake(states[n])
  {
    if n == 0 {
      assert states[0].senders[0] == Idle && states[0].receivers[0] == Idle;
    } else {
      RunsStayAwake(states, ops, hash, n - 1);
      StepKeeps(states[n - 1], ops[n - 1], hash, states[n]);
    }
  }

  // Main result: with a limit of at least 1 and no drops, somebody can always go on.
  lemma NoDeadlock<V(!new)>(states: seq<State<V>>, ops: seq<Op<V>>, hash: V -> nat)
    requires IsRun(states, ops, hash)
    requires forall k :: 0 <= k < |ops| ==> !ops[k].DropReceiver? && !ops[k].DropSender?
    requires states[|ops|].limit.n > 0
    ensures SomeAwake(states[|ops|].receivers) || SomeAwake(states[|ops|].senders)
  {
    var last := states[|ops|];
    RunsStayAwake(states, ops, hash, |ops|);
    HandlesRemain(states, ops, hash, |ops|);
  }

  lemma {:induction false} HandlesRemain<V(!new)>(states: seq<State<V>>, ops: seq<Op<V>>, hash: V -> nat, n: nat)
    requires IsRun(states, ops, hash) && n <= |ops|
    requires forall k :: 0 <= k < n ==> !ops[k].DropReceiver? && !ops[k].DropSender?
    ensures Live(states[n].receivers) > 0 && Live(states[n].senders) > 0
  {
    if n == 0 {
      LiveIsZero([Idle]);
      assert [Idle][0] != Dropped;
    } else {
      HandlesRemain(states, ops, hash, n - 1);
      HandlesStay(states[n - 1], ops[n - 1], hash, states[n]);
    }
  }

  lemma HandlesStay<V(!new)>(s: State<V>, op: Op<V>, hash: V -> nat, after: State<V>)
    requires StepBy(s, op, hash, after) && !op.DropReceiver? && !op.DropSender?
    ensures Live(after.receivers) >= Live(s.receivers) && Live(after.senders) >= Live(s.senders)
  {
    if op.CloneSender? {
      CloningKeeps(s.senders, op.i);
    } else if op.CloneReceiver? {
      CloningKeeps(s.receivers, op.i);
    } else {
      assert forall k :: 0 <= k < |s.senders| ==> (s.senders[k] == Dropped <==> after.senders[k] == Dropped);
      assert forall k :: 0 <= k < |s.receivers| ==> (s.receivers[k] == Dropped <==> after.receivers[k] == Dropped);
      LiveDependsOnDropped(s.senders, after.senders);
      LiveDependsOnDropped(s.receivers, after.receivers);
    }
  }
}
