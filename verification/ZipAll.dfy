/** Zipping any number of streams: one output per round, made of the next item of every stream. */
module ZippedStreams {
  import opened Wrappers
  import opened ScriptedStreams

  datatype Elem<V, E> = Elem(stream: Stream<V, E>, slot: Option<V>)

  function Held<V>(slot: Option<V>): seq<V> {
    if slot.Some? then [slot.value] else []
  }

  // What stream `k` gave to the outputs so far.
  function Column<V>(outputs: seq<seq<V>>, k: nat): (r: seq<V>)
    requires forall o :: 0 <= o < |outputs| ==> k < |outputs[o]|
    ensures |r| == |outputs|
    ensures forall o :: 0 <= o < |r| ==> r[o] == outputs[o][k]
  {
    seq(|outputs|, o requires 0 <= o < |outputs| => outputs[o][k])
  }

  predicate AllWide<V>(outputs: seq<seq<V>>, n: nat) {
    forall o :: 0 <= o < |outputs| ==> |outputs[o]| == n
  }

  // Of a stream `all`, `given` has gone into outputs and the slot holds the item after that, if it is filled.
  ghost predicate Follows<V, E>(all: Stream<V, E>, given: seq<V>, e: Elem<V, E>) {
    && Values(all) == given + Held(e.slot) + Values(e.stream)
    && Failure(all) == Failure(e.stream)
  }

  ghost predicate AllFollow<V, E>(streams: seq<Stream<V, E>>, outputs: seq<seq<V>>, elems: seq<Elem<V, E>>)
    requires AllWide(outputs, |streams|)
  {
    && |elems| == |streams|
    && forall k :: 0 <= k < |elems| ==> Follows(streams[k], Column(outputs, k), elems[k])
  }

  // The outputs are columns of the streams.
  ghost predicate Zips<V, E>(streams: seq<Stream<V, E>>, outputs: seq<seq<V>>)
    requires AllWide(outputs, |streams|)
  {
    forall k, o :: 0 <= k < |streams| && 0 <= o < |outputs| ==>
      o < |Values(streams[k])| && outputs[o][k] == Values(streams[k])[o]
  }

  // A stream that can be polled without the zip being over.
  predicate GoesOn<V, E>(e: Elem<V, E>) {
    e.slot.Some? || (e.stream != [] && !e.stream[0].Failed?)
  }

  // A poll asks every stream whose slot is empty, once, and no other.
  function AfterPoll<V, E>(e: Elem<V, E>): Elem<V, E>
    requires GoesOn(e)
  {
    if e.slot.Some? then e else Elem(e.stream[1..], if e.stream[0].Item? then Some(e.stream[0].v) else None)
  }

  // All elements before `n` have been polled, the others have not.
  ghost predicate PolledUpTo<V, E>(before: seq<Elem<V, E>>, elems: seq<Elem<V, E>>, n: nat) {
    && |elems| == |before| && n <= |elems|
    && (forall k :: 0 <= k < n ==> GoesOn(before[k]) && elems[k] == AfterPoll(before[k]))
    && (forall k :: n <= k < |elems| ==> elems[k] == before[k])
  }

  class ZipAll<V(!new), E(!new)> {
    var elems: seq<Elem<V, E>>
    // the streams given, the outputs so far, and whether the end or an error has been returned
    ghost const streams: seq<Stream<V, E>>
    ghost var outputs: seq<seq<V>>
    ghost var closed: bool

    ghost predicate Valid()
      reads this
    {
      && AllWide(outputs, |streams|) && Zips(streams, outputs)
      && if closed then elems == [] else AllFollow(streams, outputs, elems)
    }

    constructor (streams: seq<Stream<V, E>>)
      ensures Valid() && this.streams == streams && outputs == [] && !closed
    {
      this.streams := streams;
      this.elems := seq(|streams|, k requires 0 <= k < |streams| => Elem(streams[k], None));
      this.outputs := [];
      this.closed := false;
    }

    // One poll. Once closed, the stream has ended for good.
    method PollNext() returns (r: Poll<Option<Result<seq<V>, E>>>)
      requires Valid()
      modifies this
      ensures Valid()
      ensures old(closed) ==> r == Ready(None)
      // pending: every stream still owing an item was asked, and some answered that it has none yet
      ensures r == Pending ==>
                && outputs == old(outputs) && !closed
                && PolledUpTo(old(elems), elems, |elems|) && exists k :: 0 <= k < |elems| && elems[k].slot.None?
      ensures forall v :: r == Ready(Some(Ok(v))) ==> outputs == old(outputs) + [v] && !closed
      // the end: some stream has given all its items, or there are no streams
      ensures r == Ready(None) ==>
                && outputs == old(outputs) && (closed || streams == [])
                && (old(closed) || streams == [] || Shortest(None))
      // an error: that of a stream that has given all its items
      ensures forall e :: r == Ready(Some(Err(e))) ==> outputs == old(outputs) && closed && Shortest(Some(e))
    {
      var allDone, over := PollAll();
      if over.Some? {
        elems := [];
        closed := true;
        return Ready(over.value);
      }
      if allDone {
        var result := TakeSlots();
        if result == [] {
          r := Ready(None);
        } else {
          r := Ready(Some(Ok(result)));
        }
      } else {
        r := Pending;
      }
    }

    // The loop: polls every stream whose slot is empty, until one ends or fails.
    method PollAll() returns (allDone: bool, over: Option<Option<Result<seq<V>, E>>>)
      requires Valid()
      modifies this`elems
      ensures Valid() && (closed ==> allDone && over.None?)
      ensures over.None? ==> PolledUpTo(old(elems), elems, |elems|)
      ensures over.None? ==> (allDone <==> forall k :: 0 <= k < |elems| ==> elems[k].slot.Some?)
      ensures over == Some(None) ==> Shortest(None)
      ensures over.Some? && over.value.Some? ==> over.value.value.Err? && Shortest(Some(over.value.value.error))
    {
      allDone := true;
      over := None;
      var i := 0;
      while i < |elems|
        invariant 0 <= i <= |elems| && (closed ==> allDone)
        invariant Valid() && PolledUpTo(old(elems), elems, i)
        invariant allDone <==> forall k :: 0 <= k < i ==> elems[k].slot.Some?
      {
        if elems[i].slot.None? {
          var answer := PollElem(i);
          match answer {
            case Ready(Some(Ok(_))) =>
            case Ready(Some(Err(e))) =>
              return allDone, Some(Some(Err(e)));
            case Ready(None) =>
              return allDone, Some(None);
            case Pending =>
              allDone := false;
          }
        }
        i := i + 1;
      }
    }

    // Some stream has no item beyond the outputs so far, and then fails with `e`, or ends.
    ghost predicate Shortest(e: Option<E>)
      reads this
    {
      exists k :: 0 <= k < |streams| && |Values(streams[k])| == |outputs| && Failure(streams[k]) == e
    }

    // Polls the i-th stream for its slot.
    method PollElem(i: nat) returns (r: Poll<Option<Result<(), E>>>)
      requires Valid() && !closed && i < |elems| && elems[i].slot.None?
      modifies this`elems
      ensures Valid() && |elems| == |old(elems)|
      ensures forall k :: 0 <= k < |elems| && k != i ==> elems[k] == old(elems)[k]
      ensures match r
              case Ready(Some(Ok(_))) =>
                GoesOn(old(elems)[i]) && elems[i] == AfterPoll(old(elems)[i]) && elems[i].slot.Some?
              case Ready(Some(Err(e))) => Shortest(Some(e))
              case Ready(None) => Shortest(None)
              case Pending =>
                GoesOn(old(elems)[i]) && elems[i] == AfterPoll(old(elems)[i]) && elems[i].slot.None?
    {
      var Elem(stream, slot) := elems[i];
      assert Follows(streams[i], Column(outputs, i), elems[i]);
      ExhaustedOrNot(streams[i], Column(outputs, i), elems[i]);
      if stream == [] {
        return Ready(None);
      }
      match stream[0] {
        case Failed(e) =>
          r := Ready(Some(Err(e)));
        case Item(v) =>
          elems := elems[i := Elem(stream[1..], Some(v))];
          r := Ready(Some(Ok(())));
        case NotYet =>
          elems := elems[i := Elem(stream[1..], None)];
          r := Pending;
      }
    }

    // Empties all slots into one output; nothing happens without streams.
    method TakeSlots() returns (result: seq<V>)
      requires Valid() && forall k :: 0 <= k < |elems| ==> elems[k].slot.Some?
      modifies this`elems, this`outputs
      ensures Valid() && |result| == |elems| == |old(elems)|
      ensures outputs == if result == [] then old(outputs) else old(outputs) + [result]
    {
      result := [];
      ghost var was := elems;
      var i := 0;
      while i < |elems|
        invariant 0 <= i <= |elems| == |was| && |result| == i && outputs == old(outputs)
        invariant forall k :: 0 <= k < i ==> was[k].slot == Some(result[k]) && elems[k] == Elem(was[k].stream, None)
        invariant forall k :: i <= k < |elems| ==> elems[k] == was[k]
      {
        result := result + [elems[i].slot.value];
        elems := elems[i := Elem(elems[i].stream, None)];
        i := i + 1;
      }
      if result != [] {
        forall k | 0 <= k < |elems| {
          SlotTaken(streams[k], outputs, result, k, was[k]);
        }
        outputs := outputs + [result];
      } else {
        assert elems == was;
      }
    }
  }

  lemma ExhaustedOrNot<V, E>(all: Stream<V, E>, given: seq<V>, e: Elem<V, E>)
    requires Follows(all, given, e) && e.slot.None?
    ensures e.stream == [] ==> Values(all) == given && Failure(all) == None
    ensures e.stream != [] && e.stream[0].Failed? ==> Values(all) == given && Failure(all) == Some(e.stream[0].e)
    ensures e.stream != [] && e.stream[0].Item? ==> Follows(all, given, Elem(e.stream[1..], Some(e.stream[0].v)))
    ensures e.stream != [] && e.stream[0].NotYet? ==> Follows(all, given, Elem(e.stream[1..], None))
  {
    assert given + [] + [] == given;
    if e.stream != [] && e.stream[0].Item? {
      assert given + [] + ([e.stream[0].v] + Values(e.stream[1..])) == given + [e.stream[0].v] + Values(e.stream[1..]);
    } else if e.stream != [] && e.stream[0].NotYet? {
      assert [] + Values(e.stream[1..]) == Values(e.stream[1..]);
    }
  }

  lemma SlotTaken<V, E>(all: Stream<V, E>, outputs: seq<seq<V>>, result: seq<V>, k: nat, e: Elem<V, E>)
    requires k < |result| && e.slot == Some(result[k]) && AllWide(outputs, |result|)
    requires Follows(all, Column(outputs, k), e)
    ensures Follows(all, Column(outputs + [result], k), Elem(e.stream, None))
    ensures forall o :: 0 <= o < |outputs| + 1 ==>
              o < |Values(all)| && Column(outputs + [result], k)[o] == Values(all)[o]
  {
    var column, next := Column(outputs, k), Column(outputs + [result], k);
    assert next == column + [result[k]];
    assert Values(all) == column + [result[k]] + Values(e.stream);
    assert next + [] + Values(e.stream) == next + Values(e.stream);
  }

  // Main result, for a zip that has ended: as many outputs as the shortest stream has items, and the k-th
  // output made of the k-th items.
  lemma EndedZipIsShortest<V(!new), E(!new)>(z: ZipAll<V, E>)
    requires z.Valid() && z.streams != [] && (exists e :: z.Shortest(e))
    ensures exists k :: 0 <= k < |z.streams| && |Values(z.streams[k])| == |z.outputs|
    ensures forall k :: 0 <= k < |z.streams| ==> |z.outputs| <= |Values(z.streams[k])|
    ensures forall o, k :: 0 <= o < |z.outputs| && 0 <= k < |z.streams| ==>
              z.outputs[o][k] == Values(z.streams[k])[o]
  {
    forall k | 0 <= k < |z.streams|
      ensures |z.outputs| <= |Values(z.streams[k])|
    {
      if z.outputs != [] {
        var o := |z.outputs| - 1;
        assert Zips(z.streams, z.outputs) && |z.outputs[o]| == |z.streams|;
        assert o < |Values(z.streams[k])| && z.outputs[o][k] == Values(z.streams[k])[o];
      }
    }
  }
}
