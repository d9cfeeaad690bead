/**
 The aggregate of a stretch of response statistics, per group of tags. Histograms are multisets of values.
 */
module StatsBuckets {
  import opened Wrappers

  type Tags = map<string, string>

  datatype StatKind = Timeout | RecoverableError(message: string) | Response(status: nat)

  datatype ResponseStat = ResponseStat(kind: StatKind, rtt: Option<nat>, tags: Tags)

  datatype BucketGroupStats = BucketGroupStats(
    requestTimeouts: nat, rttHistogram: multiset<nat>, statusCounts: map<nat, nat>, testErrors: map<string, nat>)

  const NOTHING := BucketGroupStats(0, multiset{}, map[], map[])

  datatype TimeBucket = TimeBucket(time: nat, entries: map<nat, BucketGroupStats>)

  // ---------- counts ----------

  function CountOf<K>(m: map<K, nat>, k: K): nat {
    if k in m then m[k] else 0
  }

  function Counted<K>(m: map<K, nat>, k: K): map<K, nat> {
    m[k := CountOf(m, k) + 1]
  }

  function Sum<K>(a: map<K, nat>, b: map<K, nat>): (r: map<K, nat>)
    ensures r.Keys == a.Keys + b.Keys
    ensures forall k :: k in r ==> r[k] == CountOf(a, k) + CountOf(b, k)
  {
    map k | k in a.Keys + b.Keys :: CountOf(a, k) + CountOf(b, k)
  }

  lemma SameCounts<K>(a: map<K, nat>, b: map<K, nat>)
    requires a.Keys == b.Keys && forall k :: CountOf(a, k) == CountOf(b, k)
    ensures a == b
  {
    forall k | k in a
      ensures a[k] == b[k]
    {
      assert CountOf(a, k) == CountOf(b, k);
    }
  }

  lemma SumCounts<K>(a: map<K, nat>, b: map<K, nat>, k: K)
    ensures CountOf(Sum(a, b), k) == CountOf(a, k) + CountOf(b, k)
  {
  }

  lemma SumCounted<K>(a: map<K, nat>, b: map<K, nat>, k: K)
    ensures Sum(a, Counted(b, k)) == Counted(Sum(a, b), k)
  {
    var l, r := Sum(a, Counted(b, k)), Counted(Sum(a, b), k);
    forall j
      ensures CountOf(l, j) == CountOf(r, j)
    {
      SumCounts(a, Counted(b, k), j);
      SumCounts(a, b, j);
    }
    SameCounts(l, r);
  }

  lemma SumNothing<K>(a: map<K, nat>)
    ensures Sum(a, map[]) == a && Sum(map[], a) == a
  {
    SameCounts(Sum(a, map[]), a);
    SameCounts(Sum(map[], a), a);
  }

  // The loop that adds one map of counts to another.
  method AddCounts<K>(lhs: map<K, nat>, rhs: map<K, nat>) returns (r: map<K, nat>)
    ensures r == Sum(lhs, rhs)
  {
    r := lhs;
    var todo := rhs.Keys;
    ghost var done := {};
    while todo != {}
      invariant todo + done == rhs.Keys && todo !! done && r.Keys == lhs.Keys + done
      invariant forall k :: CountOf(r, k) == CountOf(lhs, k) + (if k in done then CountOf(rhs, k) else 0)
      decreases todo
    {
      var k :| k in todo;
      r := r[k := CountOf(r, k) + rhs[k]];
      todo, done := todo - {k}, done + {k};
    }
    SameCounts(r, Sum(lhs, rhs));
  }

  // ---------- one group ----------

  function Kinded(g: BucketGroupStats, kind: StatKind): BucketGroupStats {
    match kind
    case Timeout => g.(requestTimeouts := g.requestTimeouts + 1)
    case RecoverableError(message) => g.(testErrors := Counted(g.testErrors, message))
    case Response(status) => g.(statusCounts := Counted(g.statusCounts, status))
  }

  function Timed(g: BucketGroupStats, rtt: Option<nat>): BucketGroupStats {
    if rtt.Some? then g.(rttHistogram := g.rttHistogram + multiset{rtt.value}) else g
  }

  function Append(g: BucketGroupStats, stat: ResponseStat): BucketGroupStats {
    Timed(Kinded(g, stat.kind), stat.rtt)
  }

  function Combine(a: BucketGroupStats, b: BucketGroupStats): BucketGroupStats {
    BucketGroupStats(a.requestTimeouts + b.requestTimeouts, a.rttHistogram + b.rttHistogram,
                     Sum(a.statusCounts, b.statusCounts), Sum(a.testErrors, b.testErrors))
  }

  lemma CombineKinded(a: BucketGroupStats, b: BucketGroupStats, kind: StatKind)
    ensures Combine(a, Kinded(b, kind)) == Kinded(Combine(a, b), kind)
  {
    match kind
    case Timeout =>
    case RecoverableError(message) => SumCounted(a.testErrors, b.testErrors, message);
    case Response(status) => SumCounted(a.statusCounts, b.statusCounts, status);
  }

  lemma CombineTimed(a: BucketGroupStats, b: BucketGroupStats, rtt: Option<nat>)
    ensures Combine(a, Timed(b, rtt)) == Timed(Combine(a, b), rtt)
  {
    if rtt.Some? {
      Regroup(a.rttHistogram, b.rttHistogram, rtt.value);
    }
  }

  lemma Regroup(a: multiset<nat>, b: multiset<nat>, x: nat)
    ensures a + (b + multiset{x}) == a + b + multiset{x}
  {
  }

  lemma CombineAppend(a: BucketGroupStats, b: BucketGroupStats, stat: ResponseStat)
    ensures Combine(a, Append(b, stat)) == Append(Combine(a, b), stat)
  {
    CombineKinded(a, b, stat.kind);
    CombineTimed(a, Kinded(b, stat.kind), stat.rtt);
  }

  lemma CombineNothing(a: BucketGroupStats)
    ensures Combine(a, NOTHING) == a && Combine(NOTHING, a) == a
  {
    SumNothing(a.statusCounts);
    SumNothing(a.testErrors);
  }

  method CombineGroups(lhs: BucketGroupStats, rhs: BucketGroupStats) returns (r: BucketGroupStats)
    ensures r == Combine(lhs, rhs)
  {
    var statusCounts := AddCounts(lhs.statusCounts, rhs.statusCounts);
    var testErrors := AddCounts(lhs.testErrors, rhs.testErrors);
    r := BucketGroupStats(lhs.requestTimeouts + rhs.requestTimeouts, lhs.rttHistogram + rhs.rttHistogram,
                          statusCounts, testErrors);
  }

  // ---------- merging maps, whatever they hold ----------

  function At<G>(m: map<nat, G>, i: nat, nothing: G): G {
    if i in m then m[i] else nothing
  }

  function Merge<G>(a: map<nat, G>, b: map<nat, G>, nothing: G, combine: (G, G) -> G): (r: map<nat, G>)
    ensures r.Keys == a.Keys + b.Keys
    ensures forall i :: i in r ==> r[i] == combine(At(a, i, nothing), At(b, i, nothing))
  {
    map i | i in a.Keys + b.Keys :: combine(At(a, i, nothing), At(b, i, nothing))
  }

  lemma MergeUpdate<G>(a: map<nat, G>, b: map<nat, G>, i: nat, g: G, nothing: G, combine: (G, G) -> G)
    ensures Merge(a, b[i := g], nothing, combine)
         == Merge(a, b, nothing, combine)[i := combine(At(a, i, nothing), g)]
  {
    var l := Merge(a, b[i := g], nothing, combine);
    var r := Merge(a, b, nothing, combine)[i := combine(At(a, i, nothing), g)];
    assert l.Keys == r.Keys;
    forall k | k in l
      ensures l[k] == r[k]
    {
    }
  }

  lemma MergeNothing<G>(a: map<nat, G>, nothing: G, combine: (G, G) -> G)
    requires forall i :: i in a ==> combine(a[i], nothing) == a[i]
    ensures Merge(a, map[], nothing, combine) == a
  {
    var l := Merge(a, map[], nothing, combine);
    assert l.Keys == a.Keys;
  }

  lemma MergedAt<G>(a: map<nat, G>, b: map<nat, G>, i: nat, nothing: G, combine: (G, G) -> G)
    requires combine(nothing, nothing) == nothing
    ensures At(Merge(a, b, nothing, combine), i, nothing) == combine(At(a, i, nothing), At(b, i, nothing))
  {
  }

  // ---------- one bucket ----------

  type Entries = map<nat, BucketGroupStats>

  function GroupOf(es: Entries, index: nat): BucketGroupStats {
    At(es, index, NOTHING)
  }

  function AppendAt(es: Entries, stat: ResponseStat, index: nat): Entries {
    es[index := Append(GroupOf(es, index), stat)]
  }

  function CombineEntries(a: Entries, b: Entries): Entries {
    Merge(a, b, NOTHING, Combine)
  }

  lemma CombineAppendAt(a: Entries, b: Entries, stat: ResponseStat, index: nat)
    ensures CombineEntries(a, AppendAt(b, stat, index)) == AppendAt(CombineEntries(a, b), stat, index)
  {
    var ga, gb := GroupOf(a, index), GroupOf(b, index);
    MergeUpdate(a, b, index, Append(gb, stat), NOTHING, Combine);
    CombineNothing(NOTHING);
    MergedAt(a, b, index, NOTHING, Combine);
    CombineAppend(ga, gb, stat);
  }

  lemma CombineNoEntries(a: Entries)
    ensures CombineEntries(a, map[]) == a
  {
    forall i | i in a {
      CombineNothing(a[i]);
    }
    MergeNothing(a, NOTHING, Combine);
  }

  method MergeEntry(es: Entries, index: nat, entry: BucketGroupStats) returns (r: Entries)
    ensures r == es[index := if index in es then Combine(es[index], entry) else entry]
  {
    if index in es {
      var group := CombineGroups(es[index], entry);
      r := es[index := group];
    } else {
      r := es[index := entry];
    }
  }

  // The loop of `TimeBucket::combine`: a group the left bucket lacks is taken over as it is.
  method CombineBuckets(lhs: TimeBucket, rhs: TimeBucket) returns (r: TimeBucket)
    ensures r == TimeBucket(lhs.time, CombineEntries(lhs.entries, rhs.entries))
  {
    var es := lhs.entries;
    var todo := rhs.entries.Keys;
    CombineNoEntries(lhs.entries);
    WithoutKeys(rhs.entries);
    while todo != {}
      invariant todo <= rhs.entries.Keys
      invariant es == CombineEntries(lhs.entries, rhs.entries - todo)
      decreases todo
    {
      var index :| index in todo;
      KeyTakenBack(rhs.entries, todo, index);
      OneMoreEntry(lhs.entries, rhs.entries - todo, index, rhs.entries[index]);
      es := MergeEntry(es, index, rhs.entries[index]);
      todo := todo - {index};
    }
    r := TimeBucket(lhs.time, es);
  }

  lemma WithoutKeys<G>(m: map<nat, G>)
    ensures m - m.Keys == map[] && m - {} == m
  {
  }

  lemma KeyTakenBack<G>(m: map<nat, G>, todo: set<nat>, i: nat)
    requires i in todo && todo <= m.Keys
    ensures m - (todo - {i}) == (m - todo)[i := m[i]] && i !in m - todo
  {
  }

  lemma OneMoreEntry(a: Entries, done: Entries, index: nat, entry: BucketGroupStats)
    requires index !in done
    ensures var es := CombineEntries(a, done);
            CombineEntries(a, done[index := entry])
            == es[index := if index in es then Combine(es[index], entry) else entry]
  {
    MergeUpdate(a, done, index, entry, NOTHING, Combine);
    CombineNothing(GroupOf(a, index));
    CombineNothing(entry);
  }

  // ---------- the aggregate of a sequence ----------

  type Indexed = (ResponseStat, nat)

  function Aggregate(stats: seq<Indexed>): Entries {
    if stats == [] then map[]
    else
      var (stat, index) := stats[|stats| - 1];
      AppendAt(Aggregate(stats[..|stats| - 1]), stat, index)
  }

  lemma AggregateAppend(stats: seq<Indexed>, stat: ResponseStat, index: nat)
    ensures Aggregate(stats + [(stat, index)]) == AppendAt(Aggregate(stats), stat, index)
  {
    assert (stats + [(stat, index)])[..|stats|] == stats;
  }

  // Main result: combining aggregates is aggregating, so nothing is counted twice and nothing is lost.
  lemma {:induction false} CombineIsAggregate(a: seq<Indexed>, b: seq<Indexed>)
    ensures CombineEntries(Aggregate(a), Aggregate(b)) == Aggregate(a + b)
  {
    if b == [] {
      assert a + b == a;
      CombineNoEntries(Aggregate(a));
    } else {
      var n := |b| - 1;
      var (stat, index) := b[n];
      CombineIsAggregate(a, b[..n]);
      CombineAppendAt(Aggregate(a), Aggregate(b[..n]), stat, index);
      assert a + b == a + b[..n] + [(stat, index)];
      AggregateAppend(a + b[..n], stat, index);
    }
  }

  // ---------- what an aggregate says ----------

  function Share(stats: seq<Indexed>, index: nat): seq<ResponseStat> {
    if stats == [] then []
    else
      var last := stats[|stats| - 1];
      Share(stats[..|stats| - 1], index) + (if last.1 == index then [last.0] else [])
  }

  function Times(stats: seq<ResponseStat>, kind: StatKind): nat {
    if stats == [] then 0
    else Times(stats[..|stats| - 1], kind) + (if stats[|stats| - 1].kind == kind then 1 else 0)
  }

  function Rtts(stats: seq<ResponseStat>): multiset<nat> {
    if stats == [] then multiset{}
    else
      var rtt := stats[|stats| - 1].rtt;
      Rtts(stats[..|stats| - 1]) + (if rtt.Some? then multiset{rtt.value} else multiset{})
  }

  // A group tells how often each kind of result occurred among its stats, and their round-trip times.
  ghost predicate Tells(g: BucketGroupStats, stats: seq<ResponseStat>) {
    && g.requestTimeouts == Times(stats, Timeout)
    && (forall status :: CountOf(g.statusCounts, status) == Times(stats, Response(status)))
    && (forall message :: CountOf(g.testErrors, message) == Times(stats, RecoverableError(message)))
    && g.rttHistogram == Rtts(stats)
  }

  lemma OneMoreCounted(stats: seq<ResponseStat>, stat: ResponseStat)
    ensures forall kind ::
              Times(stats + [stat], kind) == Times(stats, kind) + (if stat.kind == kind then 1 else 0)
    ensures Rtts(stats + [stat])
         == Rtts(stats) + (if stat.rtt.Some? then multiset{stat.rtt.value} else multiset{})
  {
    var more := stats + [stat];
    assert more[..|more| - 1] == stats;
  }

  lemma AppendTells(g: BucketGroupStats, stats: seq<ResponseStat>, stat: ResponseStat)
    requires Tells(g, stats)
    ensures Tells(Append(g, stat), stats + [stat])
  {
    OneMoreCounted(stats, stat);
    KindTells(g, stats, stat);
    assert Append(g, stat).rttHistogram == Rtts(stats + [stat]);
  }

  lemma KindTells(g: BucketGroupStats, stats: seq<ResponseStat>, stat: ResponseStat)
    requires Tells(g, stats)
    ensures var k := Kinded(g, stat.kind);
            && k.requestTimeouts == Times(stats + [stat], Timeout)
            && (forall status :: CountOf(k.statusCounts, status) == Times(stats + [stat], Response(status)))
            && (forall message :: CountOf(k.testErrors, message) == Times(stats + [stat], RecoverableError(message)))
            && k.rttHistogram == g.rttHistogram
  {
    OneMoreCounted(stats, stat);
  }

  lemma {:induction false} AggregateTells(stats: seq<Indexed>, index: nat)
    ensures Tells(GroupOf(Aggregate(stats), index), Share(stats, index))
    ensures index in Aggregate(stats) <==> Share(stats, index) != []
  {
    if stats != [] {
      var n := |stats| - 1;
      AggregateTells(stats[..n], index);
      var (stat, i) := stats[n];
      if i == index {
        AppendTells(GroupOf(Aggregate(stats[..n]), index), Share(stats[..n], index), stat);
      } else {
        assert Share(stats[..n], index) + [] == Share(stats[..n], index);
      }
    }
  }

  // ---------- what an aggregate leaves out ----------

  lemma {:induction false} ShareConcat(a: seq<Indexed>, b: seq<Indexed>, index: nat)
    ensures Share(a + b, index) == Share(a, index) + Share(b, index)
  {
    if b == [] {
      assert a + b == a;
    } else {
      ShareConcat(a, b[..|b| - 1], index);
      assert (a + b)[..|a + b| - 1] == a + b[..|b| - 1];
    }
  }

  lemma {:induction false} TimesConcat(a: seq<ResponseStat>, b: seq<ResponseStat>, kind: StatKind)
    ensures Times(a + b, kind) == Times(a, kind) + Times(b, kind)
  {
    if b == [] {
      assert a + b == a;
    } else {
      TimesConcat(a, b[..|b| - 1], kind);
      assert (a + b)[..|a + b| - 1] == a + b[..|b| - 1];
    }
  }

  // How often a kind of result occurred under an index.
  function Occurrences(es: Entries, index: nat, kind: StatKind): nat {
    var g := GroupOf(es, index);
    match kind
    case Timeout => g.requestTimeouts
    case RecoverableError(message) => CountOf(g.testErrors, message)
    case Response(status) => CountOf(g.statusCounts, status)
  }

  lemma OccurrencesOf(stats: seq<Indexed>, index: nat, kind: StatKind)
    ensures Occurrences(Aggregate(stats), index, kind) == Times(Share(stats, index), kind)
  {
    AggregateTells(stats, index);
  }

  // Main result: an aggregate shows every stat, so what is left out is missed.
  lemma LeftOutIsMissed(a: seq<Indexed>, b: seq<Indexed>)
    ensures Aggregate(b) == Aggregate(a + b) <==> a == []
  {
    if a == [] {
      assert a + b == b;
    } else {
      var (stat, index) := a[0];
      var rest := a[1..] + b;
      assert a + b == [a[0]] + rest;
      ShareConcat([a[0]], rest, index);
      ShareConcat(a[1..], b, index);
      TimesConcat([stat], Share(rest, index), stat.kind);
      TimesConcat(Share(a[1..], index), Share(b, index), stat.kind);
      assert Share([a[0]], index) == [stat] && Times([stat], stat.kind) == 1;
      OccurrencesOf(b, index, stat.kind);
      OccurrencesOf(a + b, index, stat.kind);
    }
  }
}
