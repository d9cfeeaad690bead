/**
 How many requests an endpoint may have in progress: the free room in the providers it fills, times a
 multiplier that grows while they run empty and shrinks while they stay full.
 */
module AdaptiveLimits {
  import opened Wrappers

  // The length and the limit of each provider filled.
  type Rooms = seq<(nat, nat)>

  function Free(room: (nat, nat)): nat {
    if room.1 > room.0 then room.1 - room.0 else 0
  }

  function EmptySlots(rooms: Rooms): nat {
    if rooms == [] then 0
    else
      var before := EmptySlots(rooms[..|rooms| - 1]);
      var last := Free(rooms[|rooms| - 1]);
      if last > before then last else before
  }

  predicate HasEmpty(rooms: Rooms) {
    exists k :: 0 <= k < |rooms| && rooms[k].0 == 0
  }

  predicate AllFull(rooms: Rooms) {
    forall k :: 0 <= k < |rooms| ==> rooms[k].0 == rooms[k].1
  }

  lemma {:induction false} EmptySlotsIsMost(rooms: Rooms)
    ensures forall k :: 0 <= k < |rooms| ==> Free(rooms[k]) <= EmptySlots(rooms)
    ensures rooms != [] ==> exists k :: 0 <= k < |rooms| && Free(rooms[k]) == EmptySlots(rooms)
  {
    if rooms != [] {
      var n := |rooms| - 1;
      var before := rooms[..n];
      EmptySlotsIsMost(before);
      assert forall k :: 0 <= k < n ==> before[k] == rooms[k];
      if Free(rooms[n]) > EmptySlots(before) {
        assert Free(rooms[n]) == EmptySlots(rooms);
      } else if n > 0 {
        var k :| 0 <= k < n && Free(before[k]) == EmptySlots(before);
        assert Free(rooms[k]) == EmptySlots(rooms);
      }
    }
  }

  // The multiplier and for how many calls in a row, up to the multiplier, all providers have been full.
  datatype Pace = Pace(multiplier: nat, allFullCount: nat)

  predicate PaceOk(p: Pace) {
    1 <= p.multiplier <= 10 && p.allFullCount <= p.multiplier
  }

  function NextPace(p: Pace, rooms: Rooms, inProgress: nat): (r: Pace)
    requires PaceOk(p)
    ensures PaceOk(r)
  {
    var count := if !AllFull(rooms) then 0
                 else if p.allFullCount < p.multiplier then p.allFullCount + 1
                 else p.allFullCount;
    if HasEmpty(rooms) && p.multiplier < 10 && inProgress == EmptySlots(rooms) * p.multiplier then
      Pace(p.multiplier + 1, count)
    else if count == p.multiplier && p.multiplier > 1 then Pace(p.multiplier - 1, 0)
    else Pace(p.multiplier, count)
  }

  class LimitFn {
    const blockingOutgoing: bool
    const maxParallel: Option<nat>
    var multiplier: nat
    var allFullCount: nat

    ghost predicate Valid()
      reads this
    {
      PaceOk(Pace(multiplier, allFullCount)) && (maxParallel.Some? ==> maxParallel.value > 0)
    }

    // Without providers to fill there is only the maximum; without either there is no limit function.
    constructor (blockingOutgoing: bool, maxParallel: Option<nat>)
      requires maxParallel.Some? ==> maxParallel.value > 0
      requires blockingOutgoing || maxParallel.Some?
      ensures Valid() && multiplier == 1 && allFullCount == 0
      ensures this.blockingOutgoing == blockingOutgoing && this.maxParallel == maxParallel
    {
      this.blockingOutgoing := blockingOutgoing;
      this.maxParallel := maxParallel;
      this.multiplier := 1;
      this.allFullCount := 0;
    }

    // Never 0, which the runner reads as no limit, and never above the maximum.
    method Call(inProgress: nat, rooms: Rooms) returns (limit: nat)
      requires Valid() && (blockingOutgoing || maxParallel.Some?)
      modifies this
      ensures Valid() && limit > 0 && (maxParallel.Some? ==> limit <= maxParallel.value)
      ensures blockingOutgoing ==>
                Pace(multiplier, allFullCount) == NextPace(old(Pace(multiplier, allFullCount)), rooms, inProgress)
      ensures blockingOutgoing ==>
                var slots := if EmptySlots(rooms) > 0 then EmptySlots(rooms) else 1;
                limit == slots * multiplier || (maxParallel.Some? && maxParallel.value < slots * multiplier
                                                && limit == maxParallel.value)
      ensures !blockingOutgoing ==>
                limit == maxParallel.value && multiplier == old(multiplier) && allFullCount == old(allFullCount)
    {
      if !blockingOutgoing {
        return maxParallel.value;
      }
      var emptySlots, hasEmpty, allFull := Survey(rooms);
      if allFull {
        if allFullCount < multiplier {
          allFullCount := allFullCount + 1;
        }
      } else {
        allFullCount := 0;
      }
      if hasEmpty && multiplier < 10 && inProgress == emptySlots * multiplier {
        multiplier := multiplier + 1;
      } else if allFullCount == multiplier && multiplier > 1 {
        multiplier := multiplier - 1;
        allFullCount := 0;
      }
      limit := (if emptySlots > 1 then emptySlots else 1) * multiplier;
      Positive(if emptySlots > 1 then emptySlots else 1, multiplier);
      if maxParallel.Some? && maxParallel.value < limit {
        limit := maxParallel.value;
      }
    }
  }

  lemma Positive(a: nat, b: nat)
    requires a > 0 && b > 0
    ensures a * b > 0
  {
  }

  // One fold over the providers.
  method Survey(rooms: Rooms) returns (emptySlots: nat, hasEmpty: bool, allFull: bool)
    ensures emptySlots == EmptySlots(rooms) && (hasEmpty <==> HasEmpty(rooms)) && (allFull <==> AllFull(rooms))
  {
    emptySlots, hasEmpty, allFull := 0, false, true;
    var i := 0;
    assert rooms[..0] == [];
    while i < |rooms|
      invariant 0 <= i <= |rooms| && emptySlots == EmptySlots(rooms[..i])
      invariant hasEmpty <==> exists k :: 0 <= k < i && rooms[k].0 == 0
      invariant allFull <==> forall k :: 0 <= k < i ==> rooms[k].0 == rooms[k].1
    {
      var (count, limit) := rooms[i];
      assert rooms[..i + 1][..i] == rooms[..i];
      var slots := if limit > count then limit - count else 0;
      emptySlots := if slots > emptySlots then slots else emptySlots;
      hasEmpty := hasEmpty || count == 0;
      allFull := allFull && count == limit;
      i := i + 1;
    }
    assert rooms[..|rooms|] == rooms;
  }

  // ---------- how the pace moves ----------

  function Paces(p: Pace, calls: seq<(Rooms, nat)>): (r: Pace)
    requires PaceOk(p)
    ensures PaceOk(r)
    decreases |calls|
  {
    if calls == [] then p else Paces(NextPace(p, calls[0].0, calls[0].1), calls[1..])
  }

  // How many calls with all providers full, and none empty, bring the multiplier back to 1.
  function CallsToOne(p: Pace): nat
    requires PaceOk(p)
    decreases p.multiplier
  {
    if p.multiplier == 1 then 0
    else if p.allFullCount < p.multiplier then
      p.multiplier - p.allFullCount + CallsToOne(Pace(p.multiplier - 1, 0))
    else 1 + CallsToOne(Pace(p.multiplier - 1, 0))
  }

  lemma FullCallCountsDown(p: Pace, rooms: Rooms, inProgress: nat)
    requires PaceOk(p) && AllFull(rooms) && !HasEmpty(rooms) && p.multiplier > 1
    ensures CallsToOne(NextPace(p, rooms, inProgress)) == CallsToOne(p) - 1
  {
  }

  // Main result: while all providers are full the multiplier takes as many calls for each step down as its
  // value, and is at 1 after exactly that many in all.
  lemma {:induction false} FullCallsEndAtOne(p: Pace, calls: seq<(Rooms, nat)>)
    requires PaceOk(p)
    requires forall k :: 0 <= k < |calls| ==> AllFull(calls[k].0) && !HasEmpty(calls[k].0)
    ensures Paces(p, calls).multiplier == 1 <==> |calls| >= CallsToOne(p)
    decreases |calls|
  {
    if calls != [] {
      var next := NextPace(p, calls[0].0, calls[0].1);
      if p.multiplier > 1 {
        FullCallCountsDown(p, calls[0].0, calls[0].1);
      }
      FullCallsEndAtOne(next, calls[1..]);
    }
    if p.multiplier > 1 {
      assert CallsToOne(p) > 0;
    }
  }

  function SumTo(m: nat): nat {
    if m == 0 then 0 else m + SumTo(m - 1)
  }

  lemma {:induction false} SumToIs(m: nat)
    ensures 2 * SumTo(m) == m * (m + 1)
  {
    if m > 0 {
      SumToIs(m - 1);
      assert m * (m + 1) == (m - 1) * m + 2 * m;
    }
  }

  lemma {:induction false} CallsFromFresh(m: nat)
    requires 1 <= m <= 10
    ensures CallsToOne(Pace(m, 0)) == SumTo(m) - 1
  {
    if m > 1 {
      CallsFromFresh(m - 1);
    }
  }

  // That number is the sum of the values from the multiplier down to 2, less the calls already counted.
  lemma CallsToOneAddUp(p: Pace)
    requires PaceOk(p) && p.multiplier > 1
    ensures var counted := if p.allFullCount < p.multiplier then p.allFullCount else p.multiplier - 1;
            CallsToOne(p) == p.multiplier * (p.multiplier + 1) / 2 - 1 - counted
  {
    CallsFromFresh(p.multiplier - 1);
    SumToIs(p.multiplier);
  }

  // The pace before call `n`.
  function PaceBefore(calls: seq<(Rooms, nat)>, n: nat): (p: Pace)
    requires n <= |calls|
    ensures PaceOk(p)
  {
    if n == 0 then Pace(1, 0) else NextPace(PaceBefore(calls, n - 1), calls[n - 1].0, calls[n - 1].1)
  }

  // How many of the calls just before call `n` found all providers full.
  function FullInARow(calls: seq<(Rooms, nat)>, n: nat): nat
    requires n <= |calls|
  {
    if n > 0 && AllFull(calls[n - 1].0) then FullInARow(calls, n - 1) + 1 else 0
  }

  lemma {:induction false} CountIsInARow(calls: seq<(Rooms, nat)>, n: nat)
    requires n <= |calls|
    ensures PaceBefore(calls, n).allFullCount <= FullInARow(calls, n)
  {
    if n > 0 {
      CountIsInARow(calls, n - 1);
    }
  }

  // Main result, over every run of calls: the multiplier moves by at most one at a time; it rises only while a
  // provider is empty and every slot is taken up, and falls only after as many calls in a row as its value
  // have found all providers full.
  lemma PaceMovesOnlyForCause(calls: seq<(Rooms, nat)>, n: nat)
    requires n < |calls|
    ensures var p, next := PaceBefore(calls, n), PaceBefore(calls, n + 1);
            && p.multiplier - 1 <= next.multiplier <= p.multiplier + 1
            && (next.multiplier > p.multiplier ==>
                  HasEmpty(calls[n].0) && calls[n].1 == EmptySlots(calls[n].0) * p.multiplier)
            && (next.multiplier < p.multiplier ==> FullInARow(calls, n + 1) >= p.multiplier)
            && (next.multiplier > p.multiplier <==>
                  p.multiplier < 10 && HasEmpty(calls[n].0) && calls[n].1 == EmptySlots(calls[n].0) * p.multiplier)
            && (next.multiplier < p.multiplier <==>
                  && next.multiplier <= p.multiplier && p.multiplier > 1
                  && AllFull(calls[n].0) && p.allFullCount + 1 >= p.multiplier)
  {
    CountIsInARow(calls, n);
  }
}
