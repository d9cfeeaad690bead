/**
 Which endpoints a try run needs: the ones the filter picks, and every endpoint that can supply a response
 provider needed on the way.
 */
module TryRunEndpoints {

  type Tags = map<string, string>

  // An endpoint's tags and the providers it requires; what it supplies is in the index.
  datatype Entry = Entry(tags: Tags, required: set<string>)

  // What `build` decides about: the endpoints, what each supplies, the filter, and which providers are filled
  // by responses.
  datatype Setup = Setup(inner: seq<Entry>, supplied: seq<set<string>>, filter: Tags -> bool, responses: set<string>)

  predicate Included(c: Setup, i: nat) {
    i < |c.inner| && c.filter(c.inner[i].tags)
  }

  predicate Wants(c: Setup, j: nat, p: string) {
    j < |c.inner| && p in c.inner[j].required && p in c.responses
  }

  predicate Supplies(supplied: seq<set<string>>, i: nat, p: string) {
    i < |supplied| && p in supplied[i]
  }

  // Endpoint `j` requires a response provider that `i` supplies.
  ghost predicate Needs(c: Setup, j: nat, i: nat) {
    exists p :: Wants(c, j, p) && Supplies(c.supplied, i, p)
  }

  ghost predicate NeededBy(c: Setup, s: set<nat>, i: nat) {
    exists j :: j in s && Needs(c, j, i)
  }

  // Contains what the filter picks and whatever its members need.
  ghost predicate Closed(c: Setup, s: set<nat>) {
    && (forall i: nat :: Included(c, i) ==> i in s)
    && (forall i: nat :: NeededBy(c, s, i) ==> i in s)
  }

  ghost predicate Least(c: Setup, s: set<nat>) {
    && Closed(c, s)
    && forall t: set<nat> :: Closed(c, t) ==> s <= t
  }

  predicate Lists(providers: map<string, seq<nat>>, p: string, i: nat) {
    p in providers && i in providers[p]
  }

  // The index of supplied names, as `append` keeps it.
  ghost predicate Indexed(providers: map<string, seq<nat>>, supplied: seq<set<string>>) {
    forall p, i: nat :: Lists(providers, p, i) <==> Supplies(supplied, i, p)
  }

  function Entries(providers: map<string, seq<nat>>, p: string): seq<nat> {
    if p in providers then providers[p] else []
  }

  // `i` comes to stand under each of the names, after whoever stands there already.
  method Register(providers: map<string, seq<nat>>, names: set<string>, i: nat)
    returns (after: map<string, seq<nat>>)
    ensures forall p :: Entries(after, p) == Entries(providers, p) + (if p in names then [i] else [])
    ensures forall p :: p in after <==> p in providers || p in names
  {
    after := providers;
    var todo := names;
    while todo != {}
      invariant todo <= names
      invariant forall p :: Entries(after, p) == Entries(providers, p) + (if p in names - todo then [i] else [])
      invariant forall p :: p in after <==> p in providers || p in names - todo
      decreases |todo|
    {
      var p :| p in todo;
      after := after[p := (if p in after then after[p] else []) + [i]];
      todo := todo - {p};
    }
  }

  lemma RegisteredIsIndexed(
    providers: map<string, seq<nat>>, supplied: seq<set<string>>, names: set<string>, after: map<string, seq<nat>>)
    requires Indexed(providers, supplied)
    requires forall p :: Entries(after, p) == Entries(providers, p) + (if p in names then [|supplied|] else [])
    requires forall p :: p in after <==> p in providers || p in names
    ensures Indexed(after, supplied + [names])
  {
    forall p, i: nat
      ensures Lists(after, p, i) <==> Supplies(supplied + [names], i, p)
    {
      assert Lists(after, p, i) <==> i in Entries(after, p);
      assert Lists(providers, p, i) <==> i in Entries(providers, p);
      assert i in Entries(after, p) <==> i in Entries(providers, p) || (p in names && i == |supplied|);
      assert Lists(providers, p, i) <==> Supplies(supplied, i, p);
    }
  }

  function UpTo(n: nat): (r: set<nat>)
    ensures forall i: nat :: i in r <==> i < n
  {
    if n == 0 then {} else UpTo(n - 1) + {n - 1}
  }

  // The endpoints among the first `n` that the filter picks.
  function Picked(c: Setup, n: nat): (r: set<nat>)
    ensures forall i: nat :: i in r <==> i < n && Included(c, i)
  {
    if n == 0 then {} else Picked(c, n - 1) + (if Included(c, n - 1) then {n - 1} else {})
  }

  class Endpoints {
    var inner: seq<Entry>
    // provider name to the endpoints that supply it
    var providers: map<string, seq<nat>>
    ghost var supplied: seq<set<string>>

    ghost predicate Valid()
      reads this
    {
      |supplied| == |inner| && Indexed(providers, supplied)
    }

    constructor ()
      ensures Valid() && inner == [] && supplied == []
    {
      inner := [];
      providers := map[];
      supplied := [];
    }

    method Append(endpointTags: Tags, provided: set<string>, required: set<string>)
      requires Valid()
      modifies this
      ensures Valid() && inner == old(inner) + [Entry(endpointTags, required)] && supplied == old(supplied) + [provided]
    {
      var after := Register(providers, provided, |inner|);
      RegisteredIsIndexed(providers, supplied, provided, after);
      inner := inner + [Entry(endpointTags, required)];
      providers := after;
      supplied := supplied + [provided];
    }

    // The endpoints needed, each with whether something it supplies is needed.
    method Build(filter: Tags -> bool, responses: set<string>) returns (needed: map<nat, bool>)
      requires Valid()
      ensures var c := Setup(inner, supplied, filter, responses);
              && Least(c, needed.Keys)
              && forall i :: i in needed ==> (needed[i] <==> NeededBy(c, needed.Keys, i))
    {
      ghost var c := Setup(inner, supplied, filter, responses);
      var work := Work(UpTo(|inner|), map[], providers, [], responses);
      StartIsTracked(c, work, providers);
      work := VisitAll(c, providers, inner, filter, work);
      work := VisitRequired(c, providers, inner, filter, work);
      needed := work.needed;
      DoneIsLeast(c, work, providers);
    }
  }

  // What the loop of `build` works on.
  datatype Work = Work(
    endpoints: set<nat>, needed: map<nat, bool>, providers: map<string, seq<nat>>, queue: seq<nat>,
    responses: set<string>)

  // The response providers wanted by needed endpoints have left the index ...
  ghost predicate Taken(c: Setup, w: Work) {
    forall j, p :: j in w.needed && Wants(c, j, p) ==> p !in w.providers
  }

  predicate Flagged(w: Work, i: nat) {
    i in w.needed && w.needed[i]
  }

  // ... and whoever was registered under a name that left is queued or flagged.
  ghost predicate Delivered(w: Work, index: map<string, seq<nat>>, held: set<nat>) {
    forall p, i :: Lists(index, p, i) && p !in w.providers ==> i in w.queue || i in held || Flagged(w, i)
  }

  ghost predicate OnlyNeeded(c: Setup, w: Work, held: set<nat>) {
    forall i :: Flagged(w, i) || i in w.queue || i in held ==> NeededBy(c, w.needed.Keys, i)
  }

  ghost predicate InEveryClosed(c: Setup, s: set<nat>) {
    forall t: set<nat> :: Closed(c, t) ==> s <= t
  }

  // Everything the loop keeps; the endpoints in `held` have just left the queue.
  ghost predicate Tracked(c: Setup, w: Work, index: map<string, seq<nat>>, held: set<nat>) {
    && |c.supplied| == |c.inner| && Indexed(index, c.supplied)
    && (forall i: nat :: i in w.endpoints || i in w.needed <==> i < |c.inner|)
    && w.endpoints !! w.needed.Keys
    && (forall p :: p in w.providers ==> p in index && w.providers[p] == index[p])
    && Taken(c, w) && Delivered(w, index, held) && OnlyNeeded(c, w, held) && InEveryClosed(c, w.needed.Keys)
  }

  ghost predicate RegisteredUnder(providers: map<string, seq<nat>>, names: set<string>, i: nat) {
    exists p :: p in names && Lists(providers, p, i)
  }

  // Exactly the endpoints registered under one of the names.
  ghost predicate Registered(providers: map<string, seq<nat>>, names: set<string>, extended: seq<nat>) {
    forall i :: i in extended <==> RegisteredUnder(providers, names, i)
  }

  // The entries of `names`, taken out of the index.
  method Demand(names: set<string>, providers: map<string, seq<nat>>)
    returns (left: map<string, seq<nat>>, extended: seq<nat>)
    ensures left == providers - names
    ensures Registered(providers, names, extended)
    ensures if left == providers then extended == [] else |left| < |providers|
  {
    left := providers;
    extended := [];
    var done := {};
    while done != names
      invariant done <= names && Without(providers, done, left)
      invariant Registered(providers, done, extended)
      invariant if left == providers then extended == [] else |left| < |providers|
      decreases |names - done|
    {
      var p :| p in names - done;
      OneMoreName(providers, done, extended, p);
      OneLessLeft(providers, done, left, p);
      assert names - (done + {p}) < names - done;
      if p in left {
        extended := extended + left[p];
        left := left - {p};
      }
      done := done + {p};
    }
  }

  // What is left of the index without the names in `done`.
  ghost predicate Without(providers: map<string, seq<nat>>, done: set<string>, left: map<string, seq<nat>>) {
    && (forall q :: q in left <==> q in providers && q !in done)
    && forall q :: q in left ==> left[q] == providers[q]
  }

  lemma OneLessLeft(providers: map<string, seq<nat>>, done: set<string>, left: map<string, seq<nat>>, p: string)
    requires Without(providers, done, left) && p !in done
    ensures p in left <==> p in providers
    ensures p in left ==> left[p] == Entries(providers, p) && |left - {p}| < |left|
    ensures Without(providers, done + {p}, if p in left then left - {p} else left)
  {
    if p in left {
      RemovingShrinks(left, p);
    }
  }

  lemma OneMoreName(providers: map<string, seq<nat>>, names: set<string>, extended: seq<nat>, p: string)
    requires Registered(providers, names, extended)
    ensures Registered(providers, names + {p}, extended + Entries(providers, p))
    ensures p !in providers ==> Registered(providers, names + {p}, extended)
  {
    forall i
      ensures RegisteredUnder(providers, names + {p}, i)
              <==> RegisteredUnder(providers, names, i) || i in Entries(providers, p)
    {
      assert Lists(providers, p, i) <==> i in Entries(providers, p);
      if i in Entries(providers, p) {
        assert p in names + {p};
      }
    }
  }

  lemma RemovingShrinks<V>(m: map<string, V>, p: string)
    requires p in m
    ensures |m - {p}| == |m| - 1
  {
    assert (m - {p}).Keys == m.Keys - {p};
    assert |m.Keys - {p}| == |m.Keys| - 1;
  }

  lemma StartIsTracked(c: Setup, w: Work, index: map<string, seq<nat>>)
    requires |c.supplied| == |c.inner| && Indexed(index, c.supplied)
    requires forall i: nat :: i in w.endpoints <==> i < |c.inner|
    requires w.needed == map[] && w.providers == index && w.queue == []
    ensures Tracked(c, w, index, {})
  {
  }

  // The endpoint at the head of the queue, taken off it.
  lemma PoppedIsHeld(c: Setup, w: Work, index: map<string, seq<nat>>)
    requires w.queue != [] && Tracked(c, w, index, {})
    ensures Tracked(c, w.(queue := w.queue[1..]), index, {w.queue[0]})
    ensures w.queue[0] < |c.inner|
  {
    var head, rest := w.queue[0], w.queue[1..];
    assert w.queue == [head] + rest;
    assert forall i :: i in w.queue <==> i == head || i in rest;
    assert NeededBy(c, w.needed.Keys, head);
    var j :| j in w.needed.Keys && Needs(c, j, head);
    var p :| Wants(c, j, p) && Supplies(c.supplied, head, p);
  }

  lemma FlaggingKeeps(c: Setup, w: Work, index: map<string, seq<nat>>, i: nat)
    requires Tracked(c, w, index, {i}) && i in w.needed
    ensures Tracked(c, w.(needed := w.needed[i := true]), index, {})
  {
    var after := w.(needed := w.needed[i := true]);
    assert after.needed.Keys == w.needed.Keys;
    assert forall k :: Flagged(after, k) <==> Flagged(w, k) || k == i;
  }

  lemma NeededByMore(c: Setup, s: set<nat>, t: set<nat>, i: nat)
    requires s <= t && NeededBy(c, s, i)
    ensures NeededBy(c, t, i)
  {
    var j :| j in s && Needs(c, j, i);
    assert j in t;
  }

  // An endpoint moves over to the needed ones, and whoever can supply what it wants is queued.
  lemma TakingKeeps(
    c: Setup, w: Work, index: map<string, seq<nat>>, i: nat, bypassFilter: bool,
    left: map<string, seq<nat>>, extended: seq<nat>)
    requires i < |c.inner| && i in w.endpoints && (Included(c, i) || bypassFilter)
    requires Tracked(c, w, index, if bypassFilter then {i} else {}) && c.responses == w.responses
    requires var names := c.inner[i].required * c.responses;
             && left == w.providers - names
             && Registered(w.providers, names, extended)
    ensures Tracked(c, Work(w.endpoints - {i}, w.needed[i := bypassFilter], left, w.queue + extended, w.responses),
                    index, {})
  {
    var after := Work(w.endpoints - {i}, w.needed[i := bypassFilter], left, w.queue + extended, w.responses);
    assert after.needed.Keys == w.needed.Keys + {i};
    assert forall k :: Flagged(after, k) <==> Flagged(w, k) || (k == i && bypassFilter);
    var names := c.inner[i].required * c.responses;
    forall k | k in extended
      ensures exists p :: Wants(c, i, p) && Supplies(c.supplied, k, p)
    {
      assert RegisteredUnder(w.providers, names, k);
      var p :| p in names && Lists(w.providers, p, k);
      assert Lists(index, p, k);
      assert Wants(c, i, p) && Supplies(c.supplied, k, p);
    }
    forall p, k | Lists(w.providers, p, k) && p !in left
      ensures k in extended
    {
      assert RegisteredUnder(w.providers, names, k);
    }
    TakenAfter(c, w, i, left, after);
    DeliveredAfter(c, w, index, i, bypassFilter, extended, after);
    OnlyNeededAfter(c, w, i, bypassFilter, extended, after);
    InEveryClosedAfter(c, w, i, bypassFilter);
  }

  lemma TakenAfter(c: Setup, w: Work, i: nat, left: map<string, seq<nat>>, after: Work)
    requires Taken(c, w) && i < |c.inner|
    requires left == w.providers - c.inner[i].required * c.responses
    requires after.providers == left && after.needed.Keys == w.needed.Keys + {i}
    ensures Taken(c, after)
  {
    forall j, p | j in after.needed && Wants(c, j, p)
      ensures p !in after.providers
    {
      assert j in w.needed || j == i;
    }
  }

  lemma DeliveredAfter(
    c: Setup, w: Work, index: map<string, seq<nat>>, i: nat, bypassFilter: bool, extended: seq<nat>, after: Work)
    requires Delivered(w, index, if bypassFilter then {i} else {})
    requires forall p :: p in w.providers ==> p in index && w.providers[p] == index[p]
    requires forall p, k :: Lists(w.providers, p, k) && p !in after.providers ==> k in extended
    requires after.queue == w.queue + extended
    requires forall k :: Flagged(after, k) <==> Flagged(w, k) || (k == i && bypassFilter)
    ensures Delivered(after, index, {})
  {
    forall p, k | Lists(index, p, k) && p !in after.providers
      ensures k in after.queue || Flagged(after, k)
    {
      assert p in w.providers ==> Lists(w.providers, p, k);
    }
  }

  lemma OnlyNeededAfter(c: Setup, w: Work, i: nat, bypassFilter: bool, extended: seq<nat>, after: Work)
    requires OnlyNeeded(c, w, if bypassFilter then {i} else {}) && i < |c.inner|
    requires after.needed.Keys == w.needed.Keys + {i} && after.queue == w.queue + extended
    requires forall k :: Flagged(after, k) <==> Flagged(w, k) || (k == i && bypassFilter)
    requires forall k :: k in extended ==> exists p :: Wants(c, i, p) && Supplies(c.supplied, k, p)
    ensures OnlyNeeded(c, after, {})
  {
    forall k | Flagged(after, k) || k in after.queue
      ensures NeededBy(c, after.needed.Keys, k)
    {
      if k in extended {
        assert Needs(c, i, k);
        assert i in after.needed.Keys;
      } else {
        NeededByMore(c, w.needed.Keys, after.needed.Keys, k);
      }
    }
  }

  lemma InEveryClosedAfter(c: Setup, w: Work, i: nat, bypassFilter: bool)
    requires InEveryClosed(c, w.needed.Keys) && (Included(c, i) || bypassFilter)
    requires bypassFilter ==> NeededBy(c, w.needed.Keys, i)
    ensures InEveryClosed(c, w.needed.Keys + {i})
  {
    forall t: set<nat> | Closed(c, t)
      ensures w.needed.Keys + {i} <= t
    {
      if bypassFilter {
        NeededByMore(c, w.needed.Keys, t, i);
      }
    }
  }

  // With an empty queue, what is needed is the least closed set, and exactly the needed suppliers are flagged.
  lemma DoneIsLeast(c: Setup, w: Work, index: map<string, seq<nat>>)
    requires Tracked(c, w, index, {}) && w.queue == []
    requires Picked(c, |c.inner|) <= w.needed.Keys
    ensures Least(c, w.needed.Keys)
    ensures forall i :: i in w.needed ==> (w.needed[i] <==> NeededBy(c, w.needed.Keys, i))
  {
    forall i: nat | NeededBy(c, w.needed.Keys, i)
      ensures Flagged(w, i)
    {
      var j :| j in w.needed.Keys && Needs(c, j, i);
      var p :| Wants(c, j, p) && Supplies(c.supplied, i, p);
      assert Lists(index, p, i);
    }
  }

  // The loop's first part: every endpoint, with the filter.
  method VisitAll(
    ghost c: Setup, ghost index: map<string, seq<nat>>, inner: seq<Entry>, filter: Tags -> bool, w: Work)
    returns (work: Work)
    requires c.inner == inner && c.filter == filter && w.responses == c.responses
    requires Tracked(c, w, index, {}) && w.endpoints == UpTo(|inner|)
    ensures Tracked(c, work, index, {}) && work.responses == w.responses
    ensures Picked(c, |inner|) <= work.needed.Keys
  {
    work := w;
    var i := 0;
    while i < |inner|
      invariant 0 <= i <= |inner| && Tracked(c, work, index, {}) && work.responses == w.responses
      invariant UpTo(|inner|) - UpTo(i) <= work.endpoints
      invariant Picked(c, i) <= work.needed.Keys
    {
      work := Visit(c, work, index, inner[i].required, filter(inner[i].tags), false, i);
      i := i + 1;
    }
  }

  // The loop's second part: the queue, without it.
  method VisitRequired(
    ghost c: Setup, ghost index: map<string, seq<nat>>, inner: seq<Entry>, filter: Tags -> bool, w: Work)
    returns (work: Work)
    requires c.inner == inner && c.filter == filter && w.responses == c.responses
    requires Tracked(c, w, index, {})
    requires Picked(c, |inner|) <= w.needed.Keys
    ensures Tracked(c, work, index, {}) && work.queue == []
    ensures Picked(c, |inner|) <= work.needed.Keys
  {
    work := w;
    while work.queue != []
      invariant Tracked(c, work, index, {}) && work.responses == w.responses
      invariant Picked(c, |inner|) <= work.needed.Keys
      decreases |work.providers|, |work.queue|
    {
      var i := work.queue[0];
      PoppedIsHeld(c, work, index);
      work := work.(queue := work.queue[1..]);
      work := Visit(c, work, index, inner[i].required, filter(inner[i].tags), true, i);
    }
  }

  // One round of the loop.
  method Visit(
    ghost c: Setup, w: Work, ghost index: map<string, seq<nat>>, required: set<string>, included: bool,
    bypassFilter: bool, i: nat)
    returns (after: Work)
    requires i < |c.inner| && c.inner[i].required == required && (included <==> Included(c, i))
    requires c.responses == w.responses
    requires Tracked(c, w, index, if bypassFilter then {i} else {})
    requires !bypassFilter ==> i in w.endpoints
    ensures Tracked(c, after, index, {}) && after.responses == w.responses
    ensures w.needed.Keys <= after.needed.Keys && (included ==> i in after.needed)
    ensures w.endpoints - {i} <= after.endpoints
    ensures |after.providers| < |w.providers| || (after.providers == w.providers && after.queue == w.queue)
  {
    after := w;
    if i in w.endpoints {
      if included || bypassFilter {
        var left, extended := Demand(required * w.responses, w.providers);
        after := Work(w.endpoints - {i}, w.needed[i := bypassFilter], left, w.queue + extended, w.responses);
        TakingKeeps(c, w, index, i, bypassFilter, left, extended);
      }
    } else if i in w.needed {
      after := w.(needed := w.needed[i := true]);
      FlaggingKeeps(c, w, index, i);
    }
  }
}
