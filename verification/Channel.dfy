/**
 The channel object that senders and receivers share, with the handles' listeners as they stand in its
 events. Every method is one step of `ChannelStates`.
 */
module Channels {
  import opened Wrappers
  import opened ChannelStates

  class Channel<V(!new)> {
    var hasMaxed: bool
    var limit: Limit
    var queue: seq<V>
    var unique: Option<set<nat>>
    var receiverCount: nat
    var senderCount: nat
    var senders: seq<Handle>
    var receivers: seq<Handle>
    const hash: V -> nat
    // how many items have been received
    ghost var received: nat

    // The counters are the number of handles that have not been dropped.
    ghost predicate Valid()
      reads this
    {
      receiverCount == Live(receivers) && senderCount == Live(senders)
    }

    ghost function Now(): State<V>
      reads this
    {
      State(queue, hasMaxed, limit, unique, senders, receivers, received)
    }

    constructor (limit: Limit, unique: bool, hash: V -> nat)
      ensures Valid() && Now() == Initial(limit, unique) && this.hash == hash
    {
      this.hasMaxed := false;
      this.limit := limit;
      this.queue := [];
      this.unique := if unique then Some({}) else None;
      this.receiverCount := 1;
      this.senderCount := 1;
      this.senders := [Idle];
      this.receivers := [Idle];
      this.hash := hash;
      this.received := 0;
      assert [Idle][..0] == [];
    }

    method NotifyReceiver()
      requires Valid()
      modifies this`receivers
      ensures Valid() && NotifiesOne(old(receivers), receivers)
    {
      receivers := Notify(receivers);
      LiveDependsOnDropped(receivers, old(receivers));
    }

    method NotifySender()
      requires Valid()
      modifies this`senders
      ensures Valid() && NotifiesOne(old(senders), senders)
    {
      senders := Notify(senders);
      LiveDependsOnDropped(senders, old(senders));
    }

    method Send(item: V)
      requires Valid()
      modifies this
      ensures Valid() && Sends(old(Now()), item, hash, Now())
      ensures old(unique.Some? && hash(item) in unique.value) ==> queue == old(queue)
      ensures !old(unique.Some? && hash(item) in unique.value) ==> queue == old(queue) + [item]
    {
      var shouldSend := true;
      if unique.Some? {
        shouldSend := hash(item) !in unique.value;
        unique := Some(unique.value + {hash(item)});
      }
      if shouldSend {
        queue := queue + [item];
        NotifyReceiver();
      } else {
        assert old(unique.value) + {hash(item)} == old(unique.value);
      }
    }

    method Recv() returns (item: Option<V>)
      requires Valid()
      modifies this
      ensures Valid() && item == if old(queue) == [] then None else Some(old(queue)[0])
      ensures item.Some? ==> old(queue) == [item.value] + queue
      ensures if old(queue) == [] then Now() == old(Now()) else Receives(old(Now()), hash, Now())
    {
      if queue == [] {
        return None;
      }
      item := Some(queue[0]);
      queue := queue[1..];
      received := received + 1;
      if unique.Some? {
        unique := Some(unique.value - {hash(item.value)});
      }
      var innerLen, was := |queue|, limit.n;
      AdjustLimit(innerLen);
      if innerLen < was {
        NotifySender();
      }
    }

    // Grows a dynamic limit when the queue was full and is now empty; remembers that it was full.
    method AdjustLimit(innerLen: nat)
      modifies this`limit, this`hasMaxed
      ensures (limit, hasMaxed) == LimitAfter(old(limit), old(hasMaxed), innerLen)
    {
      if innerLen == 0 {
        if limit.Dynamic? && hasMaxed {
          hasMaxed := false;
          limit := Dynamic(limit.n + 1);
        }
      } else if limit.n == innerLen + 1 {
        hasMaxed := true;
      }
    }

    method TrySendItem(item: V) returns (r: SendState<V>)
      requires Valid()
      modifies this
      ensures Valid() && TriesSend(old(Now()), item, hash, Now(), r)
    {
      if receiverCount == 0 {
        return Closed(item);
      } else if |queue| < limit.n {
        Send(item);
        return Success;
      } else if receiverCount == 0 {
        return Closed(item);
      } else {
        return Full(item);
      }
    }

    // `poll_ready` of the i-th sender; Ready(false) when there are no receivers.
    method PollReadyOf(i: nat) returns (r: Poll<bool>)
      requires Valid() && Alive(senders, i)
      modifies this`senders
      ensures Valid() && PollsReady(old(Now()), i, Now(), r)
    {
      while true
        invariant Valid() && Alive(senders, i)
        invariant || senders == old(senders)
                  || (old(senders)[i] == Notified && senders == old(senders)[i := Idle])
                  || (senders == old(senders)[i := Waiting] && Live(receivers) > 0
                      && old(senders)[i] != Waiting && |queue| >= limit.n)
        decreases match senders[i] case Notified => 2 case Idle => 1 case _ => 0
      {
        if receiverCount == 0 {
          SetSender(i, Idle);
          return Ready(false);
        }
        if senders[i] == Notified {
          SetSender(i, Idle);
        } else if senders[i] == Waiting {
          return Pending;
        }
        if |queue| < limit.n {
          SetSender(i, Idle);
          return Ready(true);
        } else {
          SetSender(i, Waiting);
        }
      }
    }

    method SetSender(i: nat, h: Handle)
      requires Valid() && Alive(senders, i) && h != Dropped
      modifies this`senders
      ensures Valid() && senders == old(senders)[i := h]
    {
      senders := senders[i := h];
      LiveDependsOnDropped(senders, old(senders));
    }

    method SetReceiver(i: nat, h: Handle)
      requires Valid() && Alive(receivers, i) && h != Dropped
      modifies this`receivers
      ensures Valid() && receivers == old(receivers)[i := h]
    {
      receivers := receivers[i := h];
      LiveDependsOnDropped(receivers, old(receivers));
    }

    // `poll_next` of the i-th receiver.
    method PollNextOf(i: nat) returns (r: Poll<Option<V>>)
      requires Valid() && Alive(receivers, i)
      modifies this
      ensures Valid() && PollsNext(old(Now()), i, hash, Now(), r)
      ensures match r
              case Ready(Some(v)) => old(queue) == [v] + queue
              case Ready(None) => queue == old(queue) == [] && senderCount == 0
              case Pending => queue == old(queue)
    {
      ghost var before := Now();
      while true
        invariant Valid() && Alive(receivers, i)
        invariant || Now() == before
                  || (Now() == before.(receivers := before.receivers[i := Waiting])
                      && before.receivers[i] != Waiting && queue == [] && Live(senders) > 0)
        decreases if receivers[i] == Waiting then 0 else 1
      {
        if receivers[i] == Waiting {
          return Pending;
        }
        SetReceiver(i, Idle);
        assert Now() == before.(receivers := before.receivers[i := Idle]);
        var msg := Recv();
        if msg.Some? {
          return Ready(msg);
        } else if senderCount == 0 {
          return Ready(None);
        } else {
          SetReceiver(i, Waiting);
          assert receivers == before.receivers[i := Waiting];
        }
      }
    }

    method CloneSenderHandle() returns (i: nat)
      requires Valid() && senderCount > 0
      modifies this`senders, this`senderCount
      ensures Valid() && senders == old(senders) + [Idle] && i == |old(senders)|
    {
      i := |senders|;
      senderCount := senderCount + 1;
      senders := senders + [Idle];
      assert senders[..|senders| - 1] == old(senders);
    }

    method CloneReceiverHandle() returns (i: nat)
      requires Valid() && receiverCount > 0
      modifies this`receivers, this`receiverCount
      ensures Valid() && receivers == old(receivers) + [Idle] && i == |old(receivers)|
    {
      i := |receivers|;
      receiverCount := receiverCount + 1;
      receivers := receivers + [Idle];
      assert receivers[..|receivers| - 1] == old(receivers);
    }

    method DropSenderHandle(i: nat)
      requires Valid() && Alive(senders, i)
      modifies this`senders, this`receivers, this`senderCount
      ensures Valid() && DropsSender(old(Now()), i, Now())
    {
      LiveAfterDrop(senders, i);
      senderCount := senderCount - 1;
      if senderCount == 0 {
        receivers := AllNotified(receivers);
        LiveDependsOnDropped(receivers, old(receivers));
      }
      senders := Leave(senders, i);
    }

    method DropReceiverHandle(i: nat)
      requires Valid() && Alive(receivers, i)
      modifies this`senders, this`receivers, this`receiverCount
      ensures Valid() && DropsReceiver(old(Now()), i, Now())
    {
      LiveAfterDrop(receivers, i);
      receiverCount := receiverCount - 1;
      if receiverCount == 0 {
        senders := AllNotified(senders);
        LiveDependsOnDropped(senders, old(senders));
      }
      receivers := Leave(receivers, i);
    }
  }

  // A handle's listener goes with it; a notification it had received may be passed on.
  method Leave(hs: seq<Handle>, i: nat) returns (after: seq<Handle>)
    requires Alive(hs, i)
    ensures Leaves(hs, i, after) && Live(after) == Live(hs) - 1
  {
    LiveAfterDrop(hs, i);
    after := hs[i := Dropped];
    var passedOn: bool := *;
    if hs[i] == Notified && passedOn {
      after := Notify(after);
      LiveDependsOnDropped(after, hs[i := Dropped]);
    }
  }

  // The event library's `notify(1)`: which of the listeners are notified is up to it, but somebody is.
  method Notify(hs: seq<Handle>) returns (after: seq<Handle>)
    ensures NotifiesOne(hs, after)
  {
    after := hs;
    var i, someone := 0, false;
    while i < |hs|
      invariant 0 <= i <= |hs| == |after|
      invariant forall k :: i <= k < |hs| ==> after[k] == hs[k]
      invariant forall k :: 0 <= k < i ==> after[k] == hs[k] || (hs[k] == Waiting && after[k] == Notified)
      invariant someone <==> exists k :: 0 <= k < i && after[k] == Notified
    {
      var chosen: bool := *;
      if hs[i] == Waiting && chosen {
        after := after[i := Notified];
      }
      someone := someone || after[i] == Notified;
      i := i + 1;
    }
    if !someone {
      i := 0;
      while i < |hs| && hs[i] != Waiting
        invariant 0 <= i <= |hs| && forall k :: 0 <= k < i ==> hs[k] != Waiting
      {
        i := i + 1;
      }
      if i < |hs| {
        after := after[i := Notified];
        assert after[i] == Notified;
      }
    }
  }
}
