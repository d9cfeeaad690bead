/**
 Sends and receives as they interleave: the length check, the insertion of the hash, the push, the pop and
 the removal of the hash are separate steps, taken by any number of threads in any order.
 */
module ChannelInterleavings {
  import opened Sequences

  /*
   `cleared`: senders past the length check; `pushing`: values whose hash is in the set and that are about to
   be pushed; `removing`: values popped whose hash is about to be removed. The rest is history: what was
   attempted, dropped as a duplicate, pushed and popped.
   */
  datatype State<V> = State(
    unique: bool, limit: nat, hashes: set<nat>, queue: seq<V>, cleared: nat, pushing: seq<V>, removing: seq<V>,
    attempted: seq<V>, discarded: seq<V>, pushed: seq<V>, popped: seq<V>)

  datatype Step<V> =
    | Check               // a sender finds room
    | Insert(v: V)        // a sender past the check goes on to send
    | Force(v: V)         // a sender sends without a check
    | Push(i: nat)
    | Pop
    | Remove(i: nat)
    | Grow                // a dynamic limit

  function Initial<V>(unique: bool, limit: nat): State<V> {
    State(unique, limit, {}, [], 0, [], [], [], [], [], [])
  }

  // The set's `insert`: false, and nothing happens, if the hash is already there.
  function Inserted<V>(s: State<V>, v: V, hash: V -> nat): State<V> {
    var s := s.(attempted := s.attempted + [v]);
    if s.unique && hash(v) in s.hashes then s.(discarded := s.discarded + [v])
    else s.(hashes := if s.unique then s.hashes + {hash(v)} else s.hashes, pushing := s.pushing + [v])
  }

  predicate Enabled<V>(s: State<V>, step: Step<V>) {
    match step
    case Check => |s.queue| < s.limit
    case Insert(_) => s.cleared > 0
    case Force(_) => true
    case Push(i) => i < |s.pushing|
    case Pop => s.queue != []
    case Remove(i) => i < |s.removing|
    case Grow => true
  }

  function Next<V>(s: State<V>, step: Step<V>, hash: V -> nat): State<V>
    requires Enabled(s, step)
  {
    match step
    case Check => s.(cleared := s.cleared + 1)
    case Insert(v) => Inserted(s.(cleared := s.cleared - 1), v, hash)
    case Force(v) => Inserted(s, v, hash)
    case Push(i) =>
      s.(queue := s.queue + [s.pushing[i]], pushing := Without(s.pushing, i), pushed := s.pushed + [s.pushing[i]])
    case Pop =>
      s.(queue := s.queue[1..], removing := s.removing + [s.queue[0]], popped := s.popped + [s.queue[0]])
    case Remove(i) =>
      s.(removing := Without(s.removing, i),
         hashes := if s.unique then s.hashes - {hash(s.removing[i])} else s.hashes)
    case Grow => s.(limit := s.limit + 1)
  }

  predicate CanRun<V>(s: State<V>, steps: seq<Step<V>>, hash: V -> nat)
    decreases |steps|
  {
    steps != [] ==> Enabled(s, steps[0]) && CanRun(Next(s, steps[0], hash), steps[1..], hash)
  }

  function Run<V>(s: State<V>, steps: seq<Step<V>>, hash: V -> nat): State<V>
    requires CanRun(s, steps, hash)
    decreases |steps|
  {
    if steps == [] then s else Run(Next(s, steps[0], hash), steps[1..], hash)
  }

  // ---------- counting hashes ----------

  // How many of the values have hash `h`.
  function Count<V>(vs: seq<V>, h: nat, hash: V -> nat): nat {
    if vs == [] then 0 else Count(vs[..|vs| - 1], h, hash) + (if hash(vs[|vs| - 1]) == h then 1 else 0)
  }

  lemma {:induction false} CountConcat<V>(a: seq<V>, b: seq<V>, h: nat, hash: V -> nat)
    ensures Count(a + b, h, hash) == Count(a, h, hash) + Count(b, h, hash)
  {
    if b == [] {
      assert a + b == a;
    } else {
      CountConcat(a, b[..|b| - 1], h, hash);
      assert (a + b)[..|a + b| - 1] == a + b[..|b| - 1];
    }
  }

  lemma CountAppend<V>(a: seq<V>, v: V, h: nat, hash: V -> nat)
    ensures Count(a + [v], h, hash) == Count(a, h, hash) + if hash(v) == h then 1 else 0
  {
    assert (a + [v])[..|a|] == a;
  }

  lemma CountWithout<V>(a: seq<V>, i: nat, h: nat, hash: V -> nat)
    requires i < |a|
    ensures Count(a, h, hash) == Count(Without(a, i), h, hash) + if hash(a[i]) == h then 1 else 0
  {
    CountConcat(a[..i], a[i + 1..], h, hash);
    CountConcat(a[..i] + [a[i]], a[i + 1..], h, hash);
    CountAppend(a[..i], a[i], h, hash);
    assert a == a[..i] + [a[i]] + a[i + 1..];
  }

  // ---------- the set is exactly what is under way ----------

  function UnderWay<V>(s: State<V>, h: nat, hash: V -> nat): nat {
    Count(s.pushing, h, hash) + Count(s.queue, h, hash) + Count(s.removing, h, hash)
  }

  // A disjoint union: every hash in the set comes from one value about to be pushed, queued, or popped and
  // not yet removed, and no other hash comes from any.
  ghost predicate SetIsUnderWay<V>(s: State<V>, hash: V -> nat) {
    s.unique ==> forall h :: UnderWay(s, h, hash) == if h in s.hashes then 1 else 0
  }

  lemma InsertKeepsSet<V>(s: State<V>, v: V, hash: V -> nat)
    requires SetIsUnderWay(s, hash)
    ensures SetIsUnderWay(Inserted(s, v, hash), hash)
  {
    forall h: nat {
      CountAppend(s.pushing, v, h, hash);
    }
  }

  lemma PushKeepsCount<V>(s: State<V>, i: nat, h: nat, hash: V -> nat)
    requires Enabled(s, Push(i))
    ensures UnderWay(Next(s, Push(i), hash), h, hash) == UnderWay(s, h, hash)
  {
    CountWithout(s.pushing, i, h, hash);
    CountAppend(s.queue, s.pushing[i], h, hash);
  }

  lemma PopKeepsCount<V>(s: State<V>, h: nat, hash: V -> nat)
    requires s.queue != []
    ensures UnderWay(Next(s, Pop, hash), h, hash) == UnderWay(s, h, hash)
  {
    CountWithout(s.queue, 0, h, hash);
    assert Without(s.queue, 0) == s.queue[1..];
    CountAppend(s.removing, s.queue[0], h, hash);
  }

  lemma RemoveKeepsSet<V>(s: State<V>, i: nat, hash: V -> nat)
    requires SetIsUnderWay(s, hash) && Enabled(s, Remove(i))
    ensures SetIsUnderWay(Next(s, Remove(i), hash), hash)
  {
    forall h: nat {
      CountWithout(s.removing, i, h, hash);
    }
  }

  lemma StepKeepsSet<V>(s: State<V>, step: Step<V>, hash: V -> nat)
    requires SetIsUnderWay(s, hash) && Enabled(s, step)
    ensures SetIsUnderWay(Next(s, step, hash), hash)
  {
    match step
    case Insert(v) => InsertKeepsSet(s.(cleared := s.cleared - 1), v, hash);
    case Force(v) => InsertKeepsSet(s, v, hash);
    case Push(i) =>
      forall h: nat {
        PushKeepsCount(s, i, h, hash);
      }
    case Pop =>
      forall h: nat {
        PopKeepsCount(s, h, hash);
      }
    case Remove(i) => RemoveKeepsSet(s, i, hash);
    case _ =>
  }

  // Main result: whatever the interleaving, the set is the disjoint union of what is under way.
  lemma {:induction false} RunKeepsSet<V>(s: State<V>, steps: seq<Step<V>>, hash: V -> nat)
    requires SetIsUnderWay(s, hash) && CanRun(s, steps, hash)
    ensures SetIsUnderWay(Run(s, steps, hash), hash)
    decreases |steps|
  {
    if steps != [] {
      StepKeepsSet(s, steps[0], hash);
      RunKeepsSet(Next(s, steps[0], hash), steps[1..], hash);
    }
  }

  lemma TwoCounted<V>(vs: seq<V>, i: nat, j: nat, hash: V -> nat)
    requires i < j < |vs| && hash(vs[i]) == hash(vs[j])
    ensures Count(vs, hash(vs[i]), hash) >= 2
  {
    CountWithout(vs, j, hash(vs[i]), hash);
    assert Without(vs, j)[i] == vs[i];
    CountWithout(Without(vs, j), i, hash(vs[i]), hash);
  }

  // So a unique channel never queues two values of the same hash, let alone two equal values.
  lemma QueueHasNoDuplicates<V>(limit: nat, steps: seq<Step<V>>, hash: V -> nat)
    requires CanRun(Initial<V>(true, limit), steps, hash)
    ensures var queue := Run(Initial<V>(true, limit), steps, hash).queue;
            forall i, j :: 0 <= i < j < |queue| ==> hash(queue[i]) != hash(queue[j])
  {
    var s := Run(Initial<V>(true, limit), steps, hash);
    RunKeepsSet(Initial<V>(true, limit), steps, hash);
    RunKeepsUnique(Initial<V>(true, limit), steps, hash);
    forall i, j | 0 <= i < j < |s.queue|
      ensures hash(s.queue[i]) != hash(s.queue[j])
    {
      assert UnderWay(s, hash(s.queue[i]), hash) <= 1;
      if hash(s.queue[i]) == hash(s.queue[j]) {
        TwoCounted(s.queue, i, j, hash);
      }
    }
  }

  lemma {:induction false} RunKeepsUnique<V>(s: State<V>, steps: seq<Step<V>>, hash: V -> nat)
    requires CanRun(s, steps, hash)
    ensures Run(s, steps, hash).unique == s.unique
    decreases |steps|
  {
    if steps != [] {
      RunKeepsUnique(Next(s, steps[0], hash), steps[1..], hash);
    }
  }

  // A value is discarded exactly when one of the same hash is under way: about to be pushed, queued, or
  // popped with its hash still there.
  lemma DiscardedExactly<V>(s: State<V>, v: V, hash: V -> nat)
    requires SetIsUnderWay(s, hash)
    ensures Inserted(s, v, hash).discarded != s.discarded
            <==> s.unique && exists w :: w in s.pushing + s.queue + s.removing && hash(w) == hash(v)
  {
    var h, all := hash(v), s.pushing + s.queue + s.removing;
    CountConcat(s.pushing, s.queue, h, hash);
    CountConcat(s.pushing + s.queue, s.removing, h, hash);
    CountedExactly(all, h, hash);
    assert UnderWay(s, h, hash) == Count(all, h, hash);
  }

  lemma {:induction false} CountedExactly<V>(vs: seq<V>, h: nat, hash: V -> nat)
    ensures Count(vs, h, hash) > 0 <==> exists w :: w in vs && hash(w) == h
  {
    if vs != [] {
      var n := |vs| - 1;
      CountedExactly(vs[..n], h, hash);
      assert forall w :: w in vs <==> w in vs[..n] || w == vs[n];
    }
  }

  // ---------- nothing is lost, and order is kept ----------

  // Every value attempted is discarded, about to be pushed, or pushed; what was pushed is popped in order.
  ghost predicate Accounted<V>(s: State<V>) {
    && multiset(s.attempted) == multiset(s.discarded) + multiset(s.pushing) + multiset(s.pushed)
    && s.pushed == s.popped + s.queue
    && (!s.unique ==> s.discarded == [])
  }

  lemma PushAccounts<V>(s: State<V>, i: nat, hash: V -> nat)
    requires Accounted(s) && Enabled(s, Push(i))
    ensures Accounted(Next(s, Push(i), hash))
  {
    WithoutCounts(s.pushing, i);
    MovesOver(multiset(s.discarded), multiset(s.pushing), multiset(Without(s.pushing, i)), multiset(s.pushed),
              s.pushing[i]);
    assert s.pushed + [s.pushing[i]] == s.popped + (s.queue + [s.pushing[i]]);
  }

  lemma MovesOver<V>(d: multiset<V>, a: multiset<V>, b: multiset<V>, c: multiset<V>, v: V)
    requires a == b + multiset{v}
    ensures d + a + c == d + b + (c + multiset{v})
  {
  }

  lemma InsertAccounts<V>(s: State<V>, v: V, hash: V -> nat)
    requires Accounted(s)
    ensures Accounted(Inserted(s, v, hash))
  {
    var d, w, p := multiset(s.discarded), multiset(s.pushing), multiset(s.pushed);
    assert (d + multiset{v}) + w + p == d + w + p + multiset{v};
    assert d + (w + multiset{v}) + p == d + w + p + multiset{v};
  }

  lemma StepAccounts<V>(s: State<V>, step: Step<V>, hash: V -> nat)
    requires Accounted(s) && Enabled(s, step)
    ensures Accounted(Next(s, step, hash))
  {
    match step
    case Insert(v) => InsertAccounts(s.(cleared := s.cleared - 1), v, hash);
    case Force(v) => InsertAccounts(s, v, hash);
    case Push(i) => PushAccounts(s, i, hash);
    case Pop =>
      assert s.popped + s.queue == (s.popped + [s.queue[0]]) + s.queue[1..];
    case _ =>
  }

  // Main result: in every run, values come out in the order they were pushed, none twice and none lost.
  lemma {:induction false} RunAccounts<V>(s: State<V>, steps: seq<Step<V>>, hash: V -> nat)
    requires Accounted(s) && CanRun(s, steps, hash)
    ensures Accounted(Run(s, steps, hash))
    decreases |steps|
  {
    if steps != [] {
      StepAccounts(s, steps[0], hash);
      RunAccounts(Next(s, steps[0], hash), steps[1..], hash);
    }
  }

  // ---------- how soft the limit is ----------

  function Between<V>(s: State<V>): nat {
    s.cleared + |s.pushing|
  }

  // All along the run at most `senders` threads are between their check and their push, and nobody forces.
  predicate AtMost<V>(s: State<V>, steps: seq<Step<V>>, hash: V -> nat, senders: nat)
    requires CanRun(s, steps, hash)
    decreases |steps|
  {
    && Between(s) <= senders
    && (steps != [] ==> !steps[0].Force? && AtMost(Next(s, steps[0], hash), steps[1..], hash, senders))
  }

  // Main result: with `senders` threads sending, the queue outgrows its limit by at most `senders - 1`.
  lemma {:induction false} LimitIsSoft<V>(s: State<V>, steps: seq<Step<V>>, hash: V -> nat, senders: nat)
    requires senders > 0 && CanRun(s, steps, hash) && AtMost(s, steps, hash, senders)
    requires |s.queue| + Between(s) < s.limit + senders
    ensures var end := Run(s, steps, hash); |end.queue| + Between(end) < end.limit + senders
    decreases |steps|
  {
    if steps != [] {
      LimitIsSoft(Next(s, steps[0], hash), steps[1..], hash, senders);
    }
  }

  // ... and that many are possible: fill up to one below the limit, check with everybody, then push.
  lemma SoftLimitIsAttained<V>(limit: nat, senders: nat, v: V, hash: V -> nat)
    requires limit > 0 && senders > 0
    ensures exists steps: seq<Step<V>> ::
              CanRun(Initial<V>(false, limit), steps, hash) && AtMost(Initial<V>(false, limit), steps, hash, senders)
              && |Run(Initial<V>(false, limit), steps, hash).queue| == limit - 1 + senders
  {
    var s := Initial<V>(false, limit);
    var fill := Filling(s, v, limit - 1, senders, hash);
    var full := Run(s, fill, hash);
    var checks := Checking(full, v, senders, senders, hash);
    var checked := Run(full, checks, hash);
    var pushes := Pushing(checked, v, senders, senders, hash);
    RunsJoin(full, checks, pushes, hash, senders);
    RunsJoin(s, fill, checks + pushes, hash, senders);
  }

  lemma {:induction false} RunsJoin<V>(s: State<V>, a: seq<Step<V>>, b: seq<Step<V>>, hash: V -> nat, senders: nat)
    requires CanRun(s, a, hash) && AtMost(s, a, hash, senders)
    requires CanRun(Run(s, a, hash), b, hash) && AtMost(Run(s, a, hash), b, hash, senders)
    ensures CanRun(s, a + b, hash) && AtMost(s, a + b, hash, senders)
    ensures Run(s, a + b, hash) == Run(Run(s, a, hash), b, hash)
    decreases |a|
  {
    if a == [] {
      assert a + b == b;
    } else {
      RunsJoin(Next(s, a[0], hash), a[1..], b, hash, senders);
      assert (a + b)[1..] == a[1..] + b;
    }
  }

  predicate Quiet<V>(s: State<V>) {
    !s.unique && s.pushing == []
  }

  // One sender alone checks, inserts and pushes, `k` times.
  lemma {:induction false} Filling<V>(s: State<V>, v: V, k: nat, senders: nat, hash: V -> nat)
    returns (steps: seq<Step<V>>)
    requires Quiet(s) && s.cleared == 0 && senders > 0 && |s.queue| + k <= s.limit
    ensures CanRun(s, steps, hash) && AtMost(s, steps, hash, senders)
    ensures var end := Run(s, steps, hash);
            Quiet(end) && end.cleared == 0 && |end.queue| == |s.queue| + k && end.limit == s.limit
    decreases k
  {
    if k == 0 {
      steps := [];
    } else {
      var s1 := Next(s, Check, hash);
      var s2 := Next(s1, Insert(v), hash);
      var s3 := Next(s2, Push(0), hash);
      var more := Filling(s3, v, k - 1, senders, hash);
      StepFirst(s2, Push(0), more, hash, senders);
      StepFirst(s1, Insert(v), [Push(0)] + more, hash, senders);
      StepFirst(s, Check, [Insert(v)] + ([Push(0)] + more), hash, senders);
      steps := [Check] + ([Insert(v)] + ([Push(0)] + more));
    }
  }

  lemma StepFirst<V>(s: State<V>, step: Step<V>, more: seq<Step<V>>, hash: V -> nat, senders: nat)
    requires Enabled(s, step) && !step.Force? && Between(s) <= senders
    requires CanRun(Next(s, step, hash), more, hash) && AtMost(Next(s, step, hash), more, hash, senders)
    ensures CanRun(s, [step] + more, hash) && AtMost(s, [step] + more, hash, senders)
    ensures Run(s, [step] + more, hash) == Run(Next(s, step, hash), more, hash)
  {
    assert ([step] + more)[1..] == more;
  }

  lemma {:induction false} Checking<V>(s: State<V>, v: V, k: nat, senders: nat, hash: V -> nat)
    returns (steps: seq<Step<V>>)
    requires Quiet(s) && |s.queue| < s.limit && s.cleared + k <= senders
    ensures CanRun(s, steps, hash) && AtMost(s, steps, hash, senders)
    ensures Run(s, steps, hash) == s.(cleared := s.cleared + k)
    decreases k
  {
    if k == 0 {
      steps := [];
    } else {
      var more := Checking(Next(s, Check, hash), v, k - 1, senders, hash);
      StepFirst(s, Check, more, hash, senders);
      steps := [Check] + more;
    }
  }

  lemma {:induction false} Pushing<V>(s: State<V>, v: V, k: nat, senders: nat, hash: V -> nat)
    returns (steps: seq<Step<V>>)
    requires Quiet(s) && s.cleared == k <= senders
    ensures CanRun(s, steps, hash) && AtMost(s, steps, hash, senders)
    ensures |Run(s, steps, hash).queue| == |s.queue| + k
    decreases k
  {
    if k == 0 {
      steps := [];
    } else {
      var s1 := Next(s, Insert(v), hash);
      var s2 := Next(s1, Push(0), hash);
      var more := Pushing(s2, v, k - 1, senders, hash);
      StepFirst(s1, Push(0), more, hash, senders);
      StepFirst(s, Insert(v), [Push(0)] + more, hash, senders);
      steps := [Insert(v)] + ([Push(0)] + more);
    }
  }
}
