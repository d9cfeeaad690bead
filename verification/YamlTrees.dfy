/**
 Documents as trees: the events delivered for a tree are those of the tree with every alias replaced by
 the node it names -- as long as no alias names a scalar.
 */
module YamlTrees {
  import opened Wrappers
  import opened YamlEvents

  datatype Node =
    | ScalarNode(anchor: nat, s: string, style: Style, tag: Option<(string, string)>, m: Marker)
    | SequenceNode(anchor: nat, kids: seq<Node>, m: Marker, endMarker: Marker)
    | MappingNode(anchor: nat, kids: seq<Node>, m: Marker, endMarker: Marker)
    | AliasNode(id: nat, m: Marker)

  // ---------- what the parser sees ----------

  function ScalarEvent(n: Node): Event
    requires n.ScalarNode?
  {
    Scalar(n.s, n.style, n.tag)
  }

  function StartEvent(n: Node): Event {
    if n.SequenceNode? then SequenceStart else MappingStart
  }

  function EndEvent(n: Node): Event {
    if n.SequenceNode? then SequenceEnd else MappingEnd
  }

  function ParserEvents(n: Node): seq<(ParserEvent, Marker)>
    decreases n, 1
  {
    match n
    case ScalarNode(anchor, _, _, _, m) => [(Content(ScalarEvent(n), anchor), m)]
    case AliasNode(id, m) => [(Alias(id), m)]
    case _ =>
      [(Content(StartEvent(n), n.anchor), n.m)] + ForestEvents(n.kids) + [(Content(EndEvent(n), 0), n.endMarker)]
  }

  function ForestEvents(ns: seq<Node>): seq<(ParserEvent, Marker)>
    decreases ns, 0
  {
    if ns == [] then [] else ParserEvents(ns[0]) + ForestEvents(ns[1..])
  }

  // ---------- the tree with its aliases replaced ----------

  type Bound = map<nat, seq<Delivered>>

  // Anchors are bound when their node is complete; an alias to anything else stands for nothing. With
  // `scalars` an anchored scalar is bound to itself, as YAML 1.2 section 7.1 has it; without, to nothing.
  function Expand(n: Node, b: Bound, scalars: bool): (seq<Delivered>, Bound)
    decreases n, 1
  {
    match n
    case ScalarNode(anchor, _, _, _, m) =>
      var d := Delivered(ScalarEvent(n), m);
      ([d], if anchor > 0 then b[anchor := if scalars then [d] else []] else b)
    case AliasNode(id, _) => (if id in b then b[id] else [], b)
    case _ =>
      var (inner, after) := ExpandForest(n.kids, b, scalars);
      var es := [Delivered(StartEvent(n), n.m)] + inner + [Delivered(EndEvent(n), n.endMarker)];
      (es, if n.anchor > 0 then after[n.anchor := es] else after)
  }

  function ExpandForest(ns: seq<Node>, b: Bound, scalars: bool): (seq<Delivered>, Bound)
    decreases ns, 0
  {
    if ns == [] then ([], b)
    else
      var (first, between) := Expand(ns[0], b, scalars);
      var (others, after) := ExpandForest(ns[1..], between, scalars);
      (first + others, after)
  }

  // ---------- running the reference over a tree's events ----------

  function SpecState(st: Spec, input: seq<(ParserEvent, Marker)>): Spec
    decreases |input|
  {
    if input == [] then st else SpecState(SpecAfter(st, input[0].0, input[0].1), input[1..])
  }

  // From state `st` the events deliver `output` and end in state `end`.
  predicate Runs(st: Spec, input: seq<(ParserEvent, Marker)>, output: seq<Item>, end: Spec) {
    SpecRun(st, input) == output && SpecState(st, input) == end
  }

  lemma RunOne(st: Spec, p: ParserEvent, m: Marker)
    ensures Runs(st, [(p, m)], SpecOutput(st, p, m), SpecAfter(st, p, m))
  {
    assert [(p, m)][1..] == [];
    assert SpecRun(SpecAfter(st, p, m), []) == [];
  }

  lemma {:induction false} RunsJoin(
    st: Spec, a: seq<(ParserEvent, Marker)>, x: seq<Item>, mid: Spec, b: seq<(ParserEvent, Marker)>, y: seq<Item>,
    end: Spec)
    requires Runs(st, a, x, mid) && Runs(mid, b, y, end)
    ensures Runs(st, a + b, x + y, end)
    decreases |a|
  {
    if a == [] {
      assert a + b == b && x + y == y;
    } else {
      var next := SpecAfter(st, a[0].0, a[0].1);
      RunsJoin(next, a[1..], SpecRun(next, a[1..]), mid, b, y, end);
      assert (a + b)[1..] == a[1..] + b;
    }
  }

  lemma AppendAllTwice(open: seq<Open>, a: seq<Delivered>, b: seq<Delivered>)
    ensures AppendAll(AppendAll(open, a), b) == AppendAll(open, a + b)
  {
    forall k | 0 <= k < |open|
      ensures AppendAll(AppendAll(open, a), b)[k] == AppendAll(open, a + b)[k]
    {
      assert (open[k].events + a) + b == open[k].events + (a + b);
    }
  }

  lemma AppendAllNothing(open: seq<Open>)
    ensures AppendAll(open, []) == open
  {
    forall k | 0 <= k < |open|
      ensures AppendAll(open, [])[k] == open[k]
    {
      assert open[k].events + [] == open[k].events;
    }
  }

  // The state after a node: its expansion added everywhere, its anchors bound.
  function After(st: Spec, e: (seq<Delivered>, Bound)): Spec {
    Spec(e.1, AppendAll(st.open, e.0))
  }

  lemma {:induction false} NodeRuns(n: Node, st: Spec)
    ensures var e := Expand(n, st.bound, false);
            Runs(st, ParserEvents(n), Items(e.0), After(st, e))
    decreases n, 2
  {
    match n
    case ScalarNode(anchor, _, _, _, m) => RunOne(st, Content(ScalarEvent(n), anchor), m);
    case AliasNode(id, m) =>
      RunOne(st, Alias(id), m);
      AppendAllNothing(st.open);
    case _ => CollectionRuns(n, st);
  }

  lemma {:induction false} ForestRuns(ns: seq<Node>, st: Spec)
    ensures var e := ExpandForest(ns, st.bound, false);
            Runs(st, ForestEvents(ns), Items(e.0), After(st, e))
    decreases ns, 0
  {
    if ns == [] {
      AppendAllNothing(st.open);
    } else {
      var first := Expand(ns[0], st.bound, false);
      var others := ExpandForest(ns[1..], first.1, false);
      var between := After(st, first);
      NodeRuns(ns[0], st);
      ForestRuns(ns[1..], between);
      RunsJoin(st, ParserEvents(ns[0]), Items(first.0), between,
               ForestEvents(ns[1..]), Items(others.0), After(between, others));
      AppendAllTwice(st.open, first.0, others.0);
      assert Items(first.0 + others.0) == Items(first.0) + Items(others.0);
    }
  }

  lemma {:induction false} CollectionRuns(n: Node, st: Spec)
    requires n.SequenceNode? || n.MappingNode?
    ensures var e := Expand(n, st.bound, false);
            Runs(st, ParserEvents(n), Items(e.0), After(st, e))
    decreases n, 1
  {
    var start, end := Content(StartEvent(n), n.anchor), Content(EndEvent(n), 0);
    var begun := SpecAfter(st, start, n.m);
    var inner := ExpandForest(n.kids, st.bound, false);
    var closing := After(begun, inner);
    var first, last := Delivered(StartEvent(n), n.m), Delivered(EndEvent(n), n.endMarker);
    RunOne(st, start, n.m);
    ForestRuns(n.kids, begun);
    RunOne(closing, end, n.endMarker);
    ClosingCollection(n, st);
    ThreeRuns(st, (start, n.m), [Deliver(first)], begun, ForestEvents(n.kids), Items(inner.0), closing,
              (end, n.endMarker), [Deliver(last)], After(st, Expand(n, st.bound, false)));
    ItemsOfCollection(first, inner.0, last);
  }

  lemma ItemsOfCollection(first: Delivered, inner: seq<Delivered>, last: Delivered)
    ensures Items([first] + inner + [last]) == [Deliver(first)] + Items(inner) + [Deliver(last)]
  {
  }

  lemma ThreeRuns(
    st: Spec, a: (ParserEvent, Marker), x: seq<Item>, begun: Spec, b: seq<(ParserEvent, Marker)>, y: seq<Item>,
    closing: Spec, c: (ParserEvent, Marker), z: seq<Item>, end: Spec)
    requires Runs(st, [a], x, begun) && Runs(begun, b, y, closing) && Runs(closing, [c], z, end)
    ensures Runs(st, [a] + b + [c], x + y + z, end)
  {
    RunsJoin(st, [a], x, begun, b, y, closing);
    RunsJoin(st, [a] + b, x + y, closing, [c], z, end);
  }

  // Opening a collection, expanding its children and closing it leaves its whole expansion behind.
  lemma ClosingCollection(n: Node, st: Spec)
    requires n.SequenceNode? || n.MappingNode?
    ensures var begun := SpecAfter(st, Content(StartEvent(n), n.anchor), n.m);
            && begun.bound == st.bound
            && var closing := After(begun, ExpandForest(n.kids, st.bound, false));
               SpecAfter(closing, Content(EndEvent(n), 0), n.endMarker) == After(st, Expand(n, st.bound, false))
  {
    var first, last := Delivered(StartEvent(n), n.m), Delivered(EndEvent(n), n.endMarker);
    var begun := SpecAfter(st, Content(StartEvent(n), n.anchor), n.m);
    var inner := ExpandForest(n.kids, st.bound, false);
    var es := [first] + inner.0 + [last];
    if n.anchor > 0 || st.open != [] {
      assert begun.open == AppendAll(st.open, [first]) + [Open(n.anchor, [first])];
      AppendAllLast(AppendAll(st.open, [first]), Open(n.anchor, [first]), inner.0);
      ClosingPops(inner.1, AppendAll(AppendAll(st.open, [first]), inner.0), Open(n.anchor, [first] + inner.0),
                  EndEvent(n), n.endMarker);
    }
    BuffersGrow(st.open, first, inner.0, last);
  }

  lemma ClosingPops(bound: Bound, open: seq<Open>, top: Open, e: Event, m: Marker)
    requires IsEnd(e)
    ensures var d := Delivered(e, m);
            SpecAfter(Spec(bound, open + [top]), Content(e, 0), m)
            == Spec(if top.id > 0 then bound[top.id := top.events + [d]] else bound, AppendAll(open, [d]))
  {
    AppendAllLast(open, top, [Delivered(e, m)]);
  }

  lemma AppendAllLast(open: seq<Open>, top: Open, es: seq<Delivered>)
    ensures AppendAll(open + [top], es) == AppendAll(open, es) + [Open(top.id, top.events + es)]
  {
  }

  lemma BuffersGrow(open: seq<Open>, first: Delivered, inner: seq<Delivered>, last: Delivered)
    ensures AppendAll(AppendAll(AppendAll(open, [first]), inner), [last]) == AppendAll(open, [first] + inner + [last])
  {
    AppendAllTwice(open, [first], inner);
    AppendAllTwice(open, [first] + inner, [last]);
  }

  // Main result: what is delivered for a document, up to the error at its end.
  lemma DocumentDelivers(ns: seq<Node>, m: Marker)
    ensures SpecRun(Spec(map[], []), [(StreamStart, 0), (DocumentStart, 0)] + ForestEvents(ns) + [(DocumentEnd, m)])
         == Items(ExpandForest(ns, map[], false).0) + [Failure(m)]
  {
    var st := Spec(map[], []);
    var e := ExpandForest(ns, map[], false);
    RunOne(st, StreamStart, 0);
    RunOne(st, DocumentStart, 0);
    RunsJoin(st, [(StreamStart, 0)], [], st, [(DocumentStart, 0)], [], st);
    assert [(StreamStart, 0)] + [(DocumentStart, 0)] == [(StreamStart, 0), (DocumentStart, 0)];
    ForestRuns(ns, st);
    RunsJoin(st, [(StreamStart, 0), (DocumentStart, 0)], [], st, ForestEvents(ns), Items(e.0), After(st, e));
    assert [] + Items(e.0) == Items(e.0);
    RunOne(After(st, e), DocumentEnd, m);
    RunsJoin(st, [(StreamStart, 0), (DocumentStart, 0)] + ForestEvents(ns), Items(e.0), After(st, e),
             [(DocumentEnd, m)], [Failure(m)], After(st, e));
  }

  // ---------- exactly when this is alias substitution ----------

  // The anchors last bound by a scalar.
  function ScalarAnchors(n: Node, k: set<nat>): set<nat>
    decreases n, 1
  {
    match n
    case ScalarNode(anchor, _, _, _, _) => if anchor > 0 then k + {anchor} else k
    case AliasNode(_, _) => k
    case _ => ForestScalarAnchors(n.kids, k) - (if n.anchor > 0 then {n.anchor} else {})
  }

  function ForestScalarAnchors(ns: seq<Node>, k: set<nat>): set<nat>
    decreases ns, 0
  {
    if ns == [] then k else ForestScalarAnchors(ns[1..], ScalarAnchors(ns[0], k))
  }

  // No alias names a scalar.
  predicate AliasesNameCollections(n: Node, k: set<nat>)
    decreases n, 1
  {
    match n
    case ScalarNode(_, _, _, _, _) => true
    case AliasNode(id, _) => id !in k
    case _ => ForestAliasesNameCollections(n.kids, k)
  }

  predicate ForestAliasesNameCollections(ns: seq<Node>, k: set<nat>)
    decreases ns, 0
  {
    ns != [] ==> AliasesNameCollections(ns[0], k) && ForestAliasesNameCollections(ns[1..], ScalarAnchors(ns[0], k))
  }

  // What is remembered (`b`) against what should be (`t`): never longer, shorter for scalars, and equal
  // otherwise while all aliases have named collections.
  predicate Behind(b: Bound, t: Bound, k: set<nat>, good: bool) {
    && b.Keys == t.Keys && k <= b.Keys
    && (forall a :: a in b ==> |b[a]| <= |t[a]|)
    && (forall a :: a in k ==> |b[a]| < |t[a]|)
    && (good ==> forall a :: a in b && a !in k ==> b[a] == t[a])
  }

  lemma BindingKeepsBehind(
    anchor: nat, eb: seq<Delivered>, et: seq<Delivered>, b: Bound, t: Bound, k: set<nat>, good: bool)
    requires Behind(b, t, k, good) && |eb| <= |et| && (good ==> eb == et)
    ensures anchor > 0 ==> Behind(b[anchor := eb], t[anchor := et], k - {anchor}, good)
  {
  }

  lemma {:induction false} NodeExpansions(n: Node, b: Bound, t: Bound, k: set<nat>, good: bool)
    requires Behind(b, t, k, good)
    ensures var (eb, ab) := Expand(n, b, false);
            var (et, at) := Expand(n, t, true);
            var stillGood := good && AliasesNameCollections(n, k);
            && Behind(ab, at, ScalarAnchors(n, k), stillGood)
            && |eb| <= |et|
            && (stillGood ==> eb == et)
            && (!AliasesNameCollections(n, k) ==> |eb| < |et|)
    decreases n, 1
  {
    match n
    case ScalarNode(_, _, _, _, _) =>
    case AliasNode(_, _) =>
    case _ =>
      ForestExpansions(n.kids, b, t, k, good);
      var (ib, ab) := ExpandForest(n.kids, b, false);
      var (it, at) := ExpandForest(n.kids, t, true);
      var first, last := Delivered(StartEvent(n), n.m), Delivered(EndEvent(n), n.endMarker);
      BindingKeepsBehind(n.anchor, [first] + ib + [last], [first] + it + [last], ab, at,
                         ForestScalarAnchors(n.kids, k), good && ForestAliasesNameCollections(n.kids, k));
  }

  lemma {:induction false} ForestExpansions(ns: seq<Node>, b: Bound, t: Bound, k: set<nat>, good: bool)
    requires Behind(b, t, k, good)
    ensures var (eb, ab) := ExpandForest(ns, b, false);
            var (et, at) := ExpandForest(ns, t, true);
            var stillGood := good && ForestAliasesNameCollections(ns, k);
            && Behind(ab, at, ForestScalarAnchors(ns, k), stillGood)
            && |eb| <= |et|
            && (stillGood ==> eb == et)
            && (!ForestAliasesNameCollections(ns, k) ==> |eb| < |et|)
    decreases ns, 0
  {
    if ns != [] {
      NodeExpansions(ns[0], b, t, k, good);
      ForestExpansions(ns[1..], Expand(ns[0], b, false).1, Expand(ns[0], t, true).1, ScalarAnchors(ns[0], k),
                       good && AliasesNameCollections(ns[0], k));
    }
  }

  // Main result: aliases are replaced as YAML has it exactly when none of them names a scalar.
  lemma SubstitutionIsExact(ns: seq<Node>)
    ensures ExpandForest(ns, map[], false).0 == ExpandForest(ns, map[], true).0
            <==> ForestAliasesNameCollections(ns, {})
  {
    ForestExpansions(ns, map[], map[], {}, true);
  }

  // `[&a x, *a]` comes out as `[x]`.
  lemma ScalarAliasIsLost()
    ensures var x := ScalarNode(1, "x", PlainStyle, None, 1);
            var doc := [SequenceNode(0, [x, AliasNode(1, 2)], 0, 3)];
            && !ForestAliasesNameCollections(doc, {})
            && ExpandForest(doc, map[], false).0
               == [Delivered(SequenceStart, 0), Delivered(Scalar("x", PlainStyle, None), 1), Delivered(SequenceEnd, 3)]
  {
    var x, alias := ScalarNode(1, "x", PlainStyle, None, 1), AliasNode(1, 2);
    var kids := [x, alias];
    var n := SequenceNode(0, kids, 0, 3);
    assert kids[1..] == [alias] && [alias][1..] == [] && [n][1..] == [];
    assert ScalarAnchors(x, {}) == {1};
    assert !AliasesNameCollections(alias, {1});
    assert !ForestAliasesNameCollections([alias], {1});
    assert !ForestAliasesNameCollections(kids, {});
    var d := Delivered(ScalarEvent(x), 1);
    var b: Bound := map[1 := []];
    assert Expand(x, map[], false) == ([d], b);
    assert Expand(alias, b, false) == ([], b);
    assert ExpandForest([], b, false) == ([], b);
    var none: seq<Delivered> := [];
    assert none + none == none;
    assert ExpandForest([alias][1..], b, false) == (none, b);
    assert ExpandForest([alias], b, false) == (none + none, b);
    assert kids[0] == x && ExpandForest(kids[1..], b, false) == ([], b);
    assert ExpandForest(kids, map[], false) == ([d] + [], b);
    assert Expand(n, map[], false).0 == [Delivered(SequenceStart, 0)] + ([d] + []) + [Delivered(SequenceEnd, 3)];
  }
}
