/**
 The channel between providers and endpoints: a queue with a soft limit that may grow, and handles that
 wait for one another. One step is one whole send, receive, poll, clone or drop.
 */
module ChannelStates {
  import opened Wrappers

  datatype Limit = Dynamic(n: nat) | Static(n: nat)

  // A handle's listener: none, registered, or registered and notified. Waiting handles returned Pending.
  datatype Handle = Dropped | Idle | Waiting | Notified

  // `seen` holds the hashes of a unique channel; `received` counts successful receives.
  datatype State<V> = State(
    queue: seq<V>, hasMaxed: bool, limit: Limit, seen: Option<set<nat>>,
    senders: seq<Handle>, receivers: seq<Handle>, received: nat)

  datatype SendState<+V> = Closed(item: V) | Full(item: V) | Success

  function Live(hs: seq<Handle>): nat {
    if hs == [] then 0 else Live(hs[..|hs| - 1]) + (if hs[|hs| - 1].Dropped? then 0 else 1)
  }

  predicate Alive(hs: seq<Handle>, i: nat) {
    i < |hs| && hs[i] != Dropped
  }

  predicate Listening(h: Handle) {
    h.Waiting? || h.Notified?
  }

  // `notify(1)`: if anybody listens, somebody who listens has been notified; maybe more than one.
  ghost predicate NotifiesOne(hs: seq<Handle>, after: seq<Handle>) {
    && |after| == |hs|
    && (forall k :: 0 <= k < |hs| ==> after[k] == hs[k] || (hs[k] == Waiting && after[k] == Notified))
    && ((exists k :: 0 <= k < |hs| && Listening(hs[k])) ==> exists k :: 0 <= k < |hs| && after[k] == Notified)
  }

  function AllNotified(hs: seq<Handle>): (r: seq<Handle>)
    ensures |r| == |hs|
    ensures forall k :: 0 <= k < |r| ==> r[k] == if hs[k] == Waiting then Notified else hs[k]
  {
    seq(|hs|, k requires 0 <= k < |hs| => if hs[k] == Waiting then Notified else hs[k])
  }

  function Initial<V>(limit: Limit, unique: bool): State<V> {
    State([], false, limit, if unique then Some({}) else None, [Idle], [Idle], 0)
  }

  // ---------- send and receive ----------

  predicate Accepts<V>(s: State<V>, v: V, hash: V -> nat) {
    s.seen.None? || hash(v) !in s.seen.value
  }

  ghost predicate Sends<V>(s: State<V>, v: V, hash: V -> nat, after: State<V>) {
    if Accepts(s, v, hash) then
      && NotifiesOne(s.receivers, after.receivers)
      && after == s.(queue := s.queue + [v], receivers := after.receivers,
                     seen := if s.seen.Some? then Some(s.seen.value + {hash(v)}) else None)
    else after == s
  }

  // A full queue raises the flag when it is read from; emptying the queue lowers it again and, for a dynamic
  // limit, grows the limit.
  function LimitAfter(s: Limit, hasMaxed: bool, left: nat): (Limit, bool) {
    if left == 0 then
      if s.Dynamic? && hasMaxed then (Dynamic(s.n + 1), false) else (s, hasMaxed)
    else (s, hasMaxed || s.n == left + 1)
  }

  ghost predicate Receives<V>(s: State<V>, hash: V -> nat, after: State<V>)
    requires s.queue != []
  {
    var left := s.queue[1..];
    var (limit, hasMaxed) := LimitAfter(s.limit, s.hasMaxed, |left|);
    && (if |left| < s.limit.n then NotifiesOne(s.senders, after.senders) else after.senders == s.senders)
    && after == s.(queue := left, limit := limit, hasMaxed := hasMaxed, senders := after.senders,
                   received := s.received + 1,
                   seen := if s.seen.Some? then Some(s.seen.value - {hash(s.queue[0])}) else None)
  }

  // ---------- the steps of handles ----------

  ghost predicate TriesSend<V>(s: State<V>, v: V, hash: V -> nat, after: State<V>, r: SendState<V>) {
    if Live(s.receivers) == 0 then r == Closed(v) && after == s
    else if |s.queue| < s.limit.n then r == Success && Sends(s, v, hash, after)
    else r == Full(v) && after == s
  }

  ghost predicate PollsNext<V>(s: State<V>, i: nat, hash: V -> nat, after: State<V>, r: Poll<Option<V>>)
    requires Alive(s.receivers, i)
  {
    if s.receivers[i] == Waiting then r == Pending && after == s
    else
      var awake := s.(receivers := s.receivers[i := Idle]);
      if s.queue != [] then r == Ready(Some(s.queue[0])) && Receives(awake, hash, after)
      else if Live(s.senders) == 0 then r == Ready(None) && after == awake
      else r == Pending && after == s.(receivers := s.receivers[i := Waiting])
  }

  // Ready(false) stands for the error that the channel is closed.
  ghost predicate PollsReady<V>(s: State<V>, i: nat, after: State<V>, r: Poll<bool>)
    requires Alive(s.senders, i)
  {
    if Live(s.receivers) == 0 then r == Ready(false) && after == s.(senders := s.senders[i := Idle])
    else if s.senders[i] == Waiting then r == Pending && after == s
    else if |s.queue| < s.limit.n then r == Ready(true) && after == s.(senders := s.senders[i := Idle])
    else r == Pending && after == s.(senders := s.senders[i := Waiting])
  }

  // A handle goes. What becomes of a notification it had received and not looked at is up to the event
  // library: it may be passed on to another listener.
  ghost predicate Leaves(hs: seq<Handle>, i: nat, after: seq<Handle>)
    requires Alive(hs, i)
  {
    var left := hs[i := Dropped];
    after == left || (hs[i] == Notified && NotifiesOne(left, after))
  }

  // The last sender to go wakes all receivers, and the other way round.
  ghost predicate DropsSender<V>(s: State<V>, i: nat, after: State<V>)
    requires Alive(s.senders, i)
  {
    && Leaves(s.senders, i, after.senders)
    && after == s.(senders := after.senders,
                   receivers := if Live(after.senders) == 0 then AllNotified(s.receivers) else s.receivers)
  }

  ghost predicate DropsReceiver<V>(s: State<V>, i: nat, after: State<V>)
    requires Alive(s.receivers, i)
  {
    && Leaves(s.receivers, i, after.receivers)
    && after == s.(receivers := after.receivers,
                   senders := if Live(after.receivers) == 0 then AllNotified(s.senders) else s.senders)
  }

  datatype Op<V> =
    | ForceSend(i: nat, v: V)
    | TrySend(i: nat, v: V)
    | PollNext(i: nat)
    | PollReady(i: nat)
    | CloneSender(i: nat)
    | CloneReceiver(i: nat)
    | DropSender(i: nat)
    | DropReceiver(i: nat)

  ghost predicate StepBy<V(!new)>(s: State<V>, op: Op<V>, hash: V -> nat, after: State<V>) {
    match op
    case ForceSend(i, v) => Alive(s.senders, i) && Sends(s, v, hash, after)
    case TrySend(i, v) => Alive(s.senders, i) && exists r :: TriesSend(s, v, hash, after, r)
    case PollNext(i) => Alive(s.receivers, i) && exists r :: PollsNext(s, i, hash, after, r)
    case PollReady(i) => Alive(s.senders, i) && exists r :: PollsReady(s, i, after, r)
    case CloneSender(i) => Alive(s.senders, i) && after == s.(senders := s.senders + [Idle])
    case CloneReceiver(i) => Alive(s.receivers, i) && after == s.(receivers := s.receivers + [Idle])
    case DropSender(i) => Alive(s.senders, i) && DropsSender(s, i, after)
    case DropReceiver(i) => Alive(s.receivers, i) && DropsReceiver(s, i, after)
  }

  ghost predicate IsRun<V(!new)>(states: seq<State<V>>, ops: seq<Op<V>>, hash: V -> nat) {
    && |states| == |ops| + 1
    && (exists limit, unique :: states[0] == Initial(limit, unique))
    && forall k :: 0 <= k < |ops| ==> StepBy(states[k], ops[k], hash, states[k + 1])
  }

  // ---------- counting handles ----------

  lemma {:induction false} LiveAfterDrop(hs: seq<Handle>, i: nat)
    requires Alive(hs, i)
    ensures Live(hs[i := Dropped]) == Live(hs) - 1
  {
    var n := |hs| - 1;
    if i < n {
      LiveAfterDrop(hs[..n], i);
      assert hs[i := Dropped][..n] == hs[..n][i := Dropped];
    } else {
      assert hs[i := Dropped][..n] == hs[..n];
    }
  }

  // Only drops and clones change the number of handles.
  lemma {:induction false} LiveDependsOnDropped(a: seq<Handle>, b: seq<Handle>)
    requires |a| == |b| && forall k :: 0 <= k < |a| ==> (a[k] == Dropped <==> b[k] == Dropped)
    ensures Live(a) == Live(b)
  {
    if a != [] {
      LiveDependsOnDropped(a[..|a| - 1], b[..|b| - 1]);
    }
  }

  lemma {:induction false} LiveIsZero(hs: seq<Handle>)
    ensures Live(hs) == 0 <==> forall k :: 0 <= k < |hs| ==> hs[k] == Dropped
  {
    if hs != [] {
      LiveIsZero(hs[..|hs| - 1]);
      assert forall k :: 0 <= k < |hs| - 1 ==> hs[k] == hs[..|hs| - 1][k];
    }
  }
}
