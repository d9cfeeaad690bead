/**
 YAML events as the scanner produces them, and what a decoder has to deliver for them: every alias
 replaced by the expanded events of the collection closed under its anchor.
 */
module YamlEvents {
  import opened Wrappers

  type Marker = nat

  datatype Style = PlainStyle | QuotedStyle | BlockStyle

  datatype Event =
    | MappingStart
    | MappingEnd
    | SequenceStart
    | SequenceEnd
    | Scalar(s: string, style: Style, tag: Option<(string, string)>)

  // Anchors are numbered from 1; 0 is no anchor.
  datatype ParserEvent =
    | Nothing
    | StreamStart
    | StreamEnd
    | DocumentStart
    | DocumentEnd
    | Alias(id: nat)
    | Content(e: Event, anchor: nat)

  datatype Delivered = Delivered(e: Event, marker: Marker)

  // What successive calls of `next` return; the end of a document or stream is an error there.
  datatype Item = Deliver(d: Delivered) | Failure(marker: Marker)

  predicate IsStart(e: Event) {
    e.MappingStart? || e.SequenceStart?
  }

  predicate IsEnd(e: Event) {
    e.MappingEnd? || e.SequenceEnd?
  }

  // Only starts and scalars can be anchored.
  function AnchorOf(p: ParserEvent): nat {
    if p.Content? && !IsEnd(p.e) then p.anchor else 0
  }

  // ---------- the reference: expansions by name, and a buffer for every open collection ----------

  datatype Open = Open(id: nat, events: seq<Delivered>)

  // `open` is used from the first open anchored collection on; id 0 marks one without anchor.
  datatype Spec = Spec(bound: map<nat, seq<Delivered>>, open: seq<Open>)

  function AppendAll(open: seq<Open>, es: seq<Delivered>): (r: seq<Open>)
    ensures |r| == |open|
    ensures forall k :: 0 <= k < |r| ==> r[k] == Open(open[k].id, open[k].events + es)
  {
    seq(|open|, k requires 0 <= k < |open| => Open(open[k].id, open[k].events + es))
  }

  // A scalar's anchor is remembered as standing for nothing.
  function SpecAfter(st: Spec, p: ParserEvent, m: Marker): Spec {
    match p
    case Alias(i) => if i in st.bound then st.(open := AppendAll(st.open, st.bound[i])) else st
    case Content(e, _) =>
      var a := AnchorOf(p);
      var d := Delivered(e, m);
      var open := AppendAll(st.open, [d]);
      if a > 0 && e.Scalar? then Spec(st.bound[a := []], open)
      else if a > 0 then Spec(st.bound, open + [Open(a, [d])])
      else if IsEnd(e) && open != [] then
        var top := open[|open| - 1];
        Spec(if top.id > 0 then st.bound[top.id := top.events] else st.bound, open[..|open| - 1])
      else if IsStart(e) && open != [] then Spec(st.bound, open + [Open(0, [d])])
      else Spec(st.bound, open)
    case _ => st
  }

  function Items(es: seq<Delivered>): (r: seq<Item>)
    ensures |r| == |es|
  {
    seq(|es|, k requires 0 <= k < |es| => Deliver(es[k]))
  }

  function SpecOutput(st: Spec, p: ParserEvent, m: Marker): seq<Item> {
    match p
    case Alias(i) => if i in st.bound then Items(st.bound[i]) else []
    case Content(e, _) => [Deliver(Delivered(e, m))]
    case StreamEnd => [Failure(m)]
    case DocumentEnd => [Failure(m)]
    case _ => []
  }

  function SpecRun(st: Spec, input: seq<(ParserEvent, Marker)>): seq<Item>
    decreases |input|
  {
    if input == [] then []
    else SpecOutput(st, input[0].0, input[0].1) + SpecRun(SpecAfter(st, input[0].0, input[0].1), input[1..])
  }

  // ---------- recorded collections are complete ----------

  function Net(es: seq<Delivered>): int {
    if es == [] then 0
    else Net(es[..|es| - 1]) + (var e := es[|es| - 1].e; if IsStart(e) then 1 else if IsEnd(e) then -1 else 0)
  }

  // Exactly one collection, from its start to the end that matches it.
  predicate OneCollection(es: seq<Delivered>) {
    es != [] && Net(es) == 0 && forall k :: 0 < k < |es| ==> Net(es[..k]) > 0
  }

  predicate StillOpen(es: seq<Delivered>, depth: nat) {
    es != [] && Net(es) == depth && forall k :: 0 < k <= |es| ==> Net(es[..k]) > 0
  }

  predicate CollectionsComplete(st: Spec) {
    && (forall a :: a in st.bound ==> st.bound[a] == [] || OneCollection(st.bound[a]))
    && (forall k :: 0 <= k < |st.open| ==> StillOpen(st.open[k].events, |st.open| - k))
  }

  lemma {:induction false} NetConcat(a: seq<Delivered>, b: seq<Delivered>)
    ensures Net(a + b) == Net(a) + Net(b)
    decreases |b|
  {
    if b == [] {
      assert a + b == a;
    } else {
      NetConcat(a, b[..|b| - 1]);
      assert (a + b)[..|a + b| - 1] == a + b[..|b| - 1];
    }
  }

  // Appending a complete collection, or nothing, leaves the depth alone.
  lemma AppendCollection(es: seq<Delivered>, depth: nat, more: seq<Delivered>)
    requires StillOpen(es, depth) && (more == [] || OneCollection(more))
    ensures StillOpen(es + more, depth)
  {
    NetConcat(es, more);
    forall k | 0 < k <= |es + more|
      ensures Net((es + more)[..k]) > 0
    {
      if k <= |es| {
        assert (es + more)[..k] == es[..k];
      } else {
        assert (es + more)[..k] == es + more[..k - |es|];
        NetConcat(es, more[..k - |es|]);
        assert k - |es| == |more| ==> more[..k - |es|] == more;
        assert es[..|es|] == es;
      }
    }
  }

  lemma AppendEvent(es: seq<Delivered>, depth: nat, d: Delivered)
    requires StillOpen(es, depth)
    ensures IsStart(d.e) ==> StillOpen(es + [d], depth + 1)
    ensures d.e.Scalar? ==> StillOpen(es + [d], depth)
    ensures IsEnd(d.e) && depth > 1 ==> StillOpen(es + [d], depth - 1)
    ensures IsEnd(d.e) && depth == 1 ==> OneCollection(es + [d])
  {
    var n := es + [d];
    assert n[..|n| - 1] == es && n[..|n|] == n;
    forall k | 0 < k <= |es|
      ensures n[..k] == es[..k]
    {
    }
  }

  lemma SingleStart(d: Delivered)
    requires IsStart(d.e)
    ensures StillOpen([d], 1)
  {
    assert [d][..0] == [] && [d][..1] == [d];
  }

  // Whatever comes in, balanced or not: what is remembered under an anchor is one whole collection (or
  // nothing, for a scalar), and open collections are exactly as deep as they are nested.
  lemma CollectionsStayComplete(st: Spec, p: ParserEvent, m: Marker)
    requires CollectionsComplete(st)
    ensures CollectionsComplete(SpecAfter(st, p, m))
  {
    if p.Alias? && p.id in st.bound {
      AliasStaysComplete(st, p, m);
    } else if p.Content? {
      ContentStaysComplete(st, p, m);
    }
  }

  lemma AliasStaysComplete(st: Spec, p: ParserEvent, m: Marker)
    requires CollectionsComplete(st) && p.Alias? && p.id in st.bound
    ensures CollectionsComplete(SpecAfter(st, p, m))
  {
    forall k | 0 <= k < |st.open| {
      AppendCollection(st.open[k].events, |st.open| - k, st.bound[p.id]);
    }
  }

  lemma ContentStaysComplete(st: Spec, p: ParserEvent, m: Marker)
    requires CollectionsComplete(st) && p.Content?
    ensures CollectionsComplete(SpecAfter(st, p, m))
  {
    var d := Delivered(p.e, m);
    forall k | 0 <= k < |st.open| {
      AppendEvent(st.open[k].events, |st.open| - k, d);
    }
    if IsStart(p.e) {
      SingleStart(d);
    }
  }
}
