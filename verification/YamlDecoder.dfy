/**
 The decoder: a flat log of the events of anchored collections, an index range per anchor, and a stack of
 ranges being replayed. Its methods are specified by what is still to be delivered.
 */
module YamlDecoding {
  import opened Wrappers
  import opened YamlEvents

  type Range = (nat, nat)

  datatype LogEntry = AliasEntry(r: Range) | EventEntry(d: Delivered)

  datatype DecodeError = YamlDeserialize(marker: Marker) | ParserFailed

  predicate RangeOk(r: Range, limit: nat) {
    r.0 <= r.1 <= limit
  }

  // An alias in the log refers to what was logged before it.
  predicate LogOk(log: seq<LogEntry>) {
    forall k :: 0 <= k < |log| && log[k].AliasEntry? ==> RangeOk(log[k].r, k)
  }

  // The events a stretch of the log stands for.
  function Flat(log: seq<LogEntry>, i: nat, j: nat): seq<Delivered>
    requires LogOk(log) && i <= j <= |log|
    decreases j, j - i
  {
    if i == j then []
    else
      (if log[i].AliasEntry? then Flat(log, log[i].r.0, log[i].r.1) else [log[i].d])
      + Flat(log, i + 1, j)
  }

  // How many steps replaying a stretch takes.
  function Cost(log: seq<LogEntry>, i: nat, j: nat): nat
    requires LogOk(log) && i <= j <= |log|
    decreases j, j - i
  {
    if i == j then 1
    else
      (if log[i].AliasEntry? then 1 + Cost(log, log[i].r.0, log[i].r.1) else 1) + Cost(log, i + 1, j)
  }

  lemma {:induction false} FlatSplits(log: seq<LogEntry>, i: nat, k: nat, j: nat)
    requires LogOk(log) && i <= k <= j <= |log|
    ensures Flat(log, i, j) == Flat(log, i, k) + Flat(log, k, j)
    decreases k - i
  {
    if i < k {
      FlatSplits(log, i + 1, k, j);
    }
  }

  lemma {:induction false} FlatOfPrefix(log: seq<LogEntry>, more: seq<LogEntry>, i: nat, j: nat)
    requires LogOk(log) && LogOk(log + more) && i <= j <= |log|
    ensures Flat(log + more, i, j) == Flat(log, i, j)
    decreases j, j - i
  {
    if i < j {
      if log[i].AliasEntry? {
        FlatOfPrefix(log, more, log[i].r.0, log[i].r.1);
      }
      FlatOfPrefix(log, more, i + 1, j);
    }
  }

  function EntryEvents(log: seq<LogEntry>, entry: LogEntry): seq<Delivered>
    requires LogOk(log) && LogOk(log + [entry])
  {
    assert (log + [entry])[|log|] == entry;
    if entry.AliasEntry? then Flat(log, entry.r.0, entry.r.1) else [entry.d]
  }

  // One more entry at the end of an open stretch.
  lemma FlatOfLonger(log: seq<LogEntry>, entry: LogEntry, i: nat)
    requires LogOk(log) && LogOk(log + [entry]) && i <= |log|
    ensures Flat(log + [entry], i, |log| + 1)
         == Flat(log, i, |log|) + EntryEvents(log, entry)
  {
    var n := log + [entry];
    FlatOfPrefix(log, [entry], i, |log|);
    FlatSplits(n, i, |log|, |log| + 1);
    assert Flat(n, |log| + 1, |log| + 1) == [];
    if entry.AliasEntry? {
      assert n[|log|] == entry;
      FlatOfPrefix(log, [entry], entry.r.0, entry.r.1);
    }
  }

  // The stack of replayed ranges, innermost last.
  predicate StackOk(log: seq<LogEntry>, stack: seq<Range>) {
    forall k :: 0 <= k < |stack| ==> RangeOk(stack[k], |log|)
  }

  function ReplayOutput(log: seq<LogEntry>, stack: seq<Range>): seq<Delivered>
    requires LogOk(log) && StackOk(log, stack)
  {
    if stack == [] then []
    else
      var top := stack[|stack| - 1];
      Flat(log, top.0, top.1) + ReplayOutput(log, stack[..|stack| - 1])
  }

  function ReplayCost(log: seq<LogEntry>, stack: seq<Range>): nat
    requires LogOk(log) && StackOk(log, stack)
  {
    if stack == [] then 0
    else
      var top := stack[|stack| - 1];
      Cost(log, top.0, top.1) + ReplayCost(log, stack[..|stack| - 1])
  }

  // A finished range is dropped; otherwise the next entry is delivered or, for an alias, entered.
  lemma ReplayDropsFinished(log: seq<LogEntry>, stack: seq<Range>)
    requires LogOk(log) && StackOk(log, stack) && stack != []
    requires stack[|stack| - 1].0 == stack[|stack| - 1].1
    ensures ReplayOutput(log, stack) == ReplayOutput(log, stack[..|stack| - 1])
    ensures ReplayCost(log, stack[..|stack| - 1]) < ReplayCost(log, stack)
  {
  }

  // The top of the stack comes first.
  lemma ReplayOfPushed(log: seq<LogEntry>, stack: seq<Range>, top: Range)
    requires LogOk(log) && StackOk(log, stack) && RangeOk(top, |log|)
    ensures StackOk(log, stack + [top])
    ensures ReplayOutput(log, stack + [top]) == Flat(log, top.0, top.1) + ReplayOutput(log, stack)
    ensures ReplayCost(log, stack + [top]) == Cost(log, top.0, top.1) + ReplayCost(log, stack)
  {
    assert (stack + [top])[..|stack + [top]| - 1] == stack;
  }

  lemma FlatUnfolds(log: seq<LogEntry>, i: nat, j: nat, rest: seq<Delivered>)
    requires LogOk(log) && i < j <= |log|
    ensures log[i].EventEntry? ==> Flat(log, i, j) + rest == [log[i].d] + (Flat(log, i + 1, j) + rest)
    ensures log[i].AliasEntry? ==>
              && Flat(log, i, j) + rest == Flat(log, log[i].r.0, log[i].r.1) + (Flat(log, i + 1, j) + rest)
              && Cost(log, i, j) == 1 + Cost(log, log[i].r.0, log[i].r.1) + Cost(log, i + 1, j)
  {
  }

  lemma ReplayDelivers(log: seq<LogEntry>, below: seq<Range>, i: nat, j: nat)
    requires LogOk(log) && StackOk(log, below) && i < j <= |log| && log[i].EventEntry?
    ensures StackOk(log, below + [(i, j)]) && StackOk(log, below + [(i + 1, j)])
    ensures ReplayOutput(log, below + [(i, j)]) == [log[i].d] + ReplayOutput(log, below + [(i + 1, j)])
  {
    ReplayOfPushed(log, below, (i, j));
    ReplayOfPushed(log, below, (i + 1, j));
    FlatUnfolds(log, i, j, ReplayOutput(log, below));
  }

  lemma ReplayEnters(log: seq<LogEntry>, below: seq<Range>, i: nat, j: nat)
    requires LogOk(log) && StackOk(log, below) && i < j <= |log| && log[i].AliasEntry?
    ensures StackOk(log, below + [(i, j)]) && StackOk(log, below + [(i + 1, j)] + [log[i].r])
    ensures ReplayOutput(log, below + [(i, j)]) == ReplayOutput(log, below + [(i + 1, j)] + [log[i].r])
    ensures ReplayCost(log, below + [(i + 1, j)] + [log[i].r]) < ReplayCost(log, below + [(i, j)])
  {
    var next := below + [(i + 1, j)];
    ReplayOfPushed(log, below, (i, j));
    ReplayOfPushed(log, below, (i + 1, j));
    ReplayOfPushed(log, next, log[i].r);
    FlatUnfolds(log, i, j, ReplayOutput(log, below));
  }

  // ---------- how the log stands for the reference ----------

  predicate AliasesStandFor(log: seq<LogEntry>, aliases: map<nat, Range>, bound: map<nat, seq<Delivered>>)
    requires LogOk(log)
  {
    && aliases.Keys == bound.Keys
    && forall a :: a in aliases ==>
         RangeOk(aliases[a], |log|) && Flat(log, aliases[a].0, aliases[a].1) == bound[a]
  }

  predicate ReferenceStandsFor(log: seq<LogEntry>, reference: Option<(nat, nat)>, open: Open)
    requires LogOk(log)
  {
    if reference.None? then open.id == 0
    else
      && reference.value.0 == open.id > 0
      && reference.value.1 < |log|
      && Flat(log, reference.value.1, |log|) == open.events
  }

  predicate StackStandsFor(log: seq<LogEntry>, references: seq<Option<(nat, nat)>>, open: seq<Open>)
    requires LogOk(log)
  {
    && |references| == |open|
    && forall k :: 0 <= k < |open| ==>
         ReferenceStandsFor(log, references[k], open[k])
  }

  lemma AliasesAfterLogging(
    log: seq<LogEntry>, entry: LogEntry, aliases: map<nat, Range>, bound: map<nat, seq<Delivered>>)
    requires LogOk(log) && LogOk(log + [entry]) && AliasesStandFor(log, aliases, bound)
    ensures AliasesStandFor(log + [entry], aliases, bound)
  {
    forall a | a in aliases {
      FlatOfPrefix(log, [entry], aliases[a].0, aliases[a].1);
    }
  }

  lemma StackAfterLogging(log: seq<LogEntry>, entry: LogEntry, references: seq<Option<(nat, nat)>>, open: seq<Open>)
    requires LogOk(log) && LogOk(log + [entry]) && StackStandsFor(log, references, open)
    ensures StackStandsFor(log + [entry], references, AppendAll(open, EntryEvents(log, entry)))
  {
    forall k | 0 <= k < |open| && references[k].Some? {
      FlatOfLonger(log, entry, references[k].value.1);
    }
  }

  class YamlDecoder {
    var aliasedEvents: seq<LogEntry>
    var aliasMap: map<nat, Range>
    var parser: seq<(ParserEvent, Marker)>
    var peeked: Option<Delivered>
    var referenceStack: seq<Option<(nat, nat)>>
    var replayingAlias: seq<Range>
    // what the reference has bound and open after the events consumed so far
    ghost var spec: Spec

    ghost predicate Valid()
      reads this
    {
      && LogOk(aliasedEvents)
      && StackOk(aliasedEvents, replayingAlias)
      && AliasesStandFor(aliasedEvents, aliasMap, spec.bound)
      && StackStandsFor(aliasedEvents, referenceStack, spec.open)
    }

    // Everything that is still to be delivered.
    ghost function Remaining(): seq<Item>
      reads this
      requires Valid()
    {
      (if peeked.Some? then [Deliver(peeked.value)] else []) + Unread()
    }

    ghost function Unread(): seq<Item>
      reads this
      requires Valid()
    {
      Items(ReplayOutput(aliasedEvents, replayingAlias)) + SpecRun(spec, parser)
    }

    constructor (events: seq<(ParserEvent, Marker)>)
      ensures Valid()
      ensures Remaining() == SpecRun(Spec(map[], []), events)
    {
      aliasedEvents := [];
      aliasMap := map[];
      parser := events;
      peeked := None;
      referenceStack := [];
      replayingAlias := [];
      spec := Spec(map[], []);
    }

    // One turn of the loop while an alias is being replayed.
    method ReplayStep() returns (found: Option<Delivered>)
      requires Valid() && replayingAlias != []
      modifies this`replayingAlias
      ensures Valid()
      ensures match found
              case Some(d) => old(Unread()) == [Deliver(d)] + Unread()
              case None =>
                && old(Unread()) == Unread()
                && ReplayCost(aliasedEvents, replayingAlias) < old(ReplayCost(aliasedEvents, replayingAlias))
    {
      var n := |replayingAlias| - 1;
      var (i, end) := replayingAlias[n];
      ghost var below := replayingAlias[..n];
      assert replayingAlias == below + [(i, end)];
      if i < end {
        replayingAlias := replayingAlias[..n] + [(i + 1, end)];
        match aliasedEvents[i] {
          case AliasEntry(r) =>
            ReplayEnters(aliasedEvents, below, i, end);
            replayingAlias := replayingAlias + [r];
            found := None;
          case EventEntry(d) =>
            ReplayDelivers(aliasedEvents, below, i, end);
            found := Some(d);
        }
      } else {
        ReplayDropsFinished(aliasedEvents, replayingAlias);
        replayingAlias := replayingAlias[..n];
        found := None;
      }
    }

    // Adds an entry to the log; every open collection grows by what it stands for.
    method Log(entry: LogEntry)
      requires Valid() && replayingAlias == [] && LogOk(aliasedEvents + [entry])
      modifies this`aliasedEvents, this`spec
      ensures Valid() && aliasedEvents == old(aliasedEvents) + [entry]
      ensures spec == old(Spec(spec.bound, AppendAll(spec.open, EntryEvents(aliasedEvents, entry))))
    {
      AliasesAfterLogging(aliasedEvents, entry, aliasMap, spec.bound);
      StackAfterLogging(aliasedEvents, entry, referenceStack, spec.open);
      spec := Spec(spec.bound, AppendAll(spec.open, EntryEvents(aliasedEvents, entry)));
      aliasedEvents := aliasedEvents + [entry];
    }

    // Logs an event where it will be needed again and keeps track of what it opens or closes.
    method Record(event: Event, anchor: nat, marker: Marker)
      requires Valid() && replayingAlias == [] && (IsEnd(event) ==> anchor == 0)
      modifies this`aliasedEvents, this`aliasMap, this`referenceStack, this`spec
      ensures Valid()
      ensures spec == SpecAfter(old(spec), Content(event, anchor), marker)
    {
      var inReference := referenceStack != [];
      var entry := EventEntry(Delivered(event, marker));
      if inReference || anchor > 0 {
        Log(entry);
      }
      if anchor > 0 {
        if event.Scalar? {
          BindScalar(anchor);
        } else {
          OpenAnchored(anchor, entry.d);
        }
      } else if IsEnd(event) {
        if inReference {
          Close();
        }
      } else if IsStart(event) && inReference {
        referenceStack := referenceStack + [None];
        spec := Spec(spec.bound, spec.open + [Open(0, [entry.d])]);
      }
    }

    // The range of an anchored scalar is empty.
    method BindScalar(anchor: nat)
      requires Valid() && aliasedEvents != []
      modifies this`aliasMap, this`spec
      ensures Valid() && spec == old(Spec(spec.bound[anchor := []], spec.open))
    {
      var i := |aliasedEvents| - 1;
      aliasMap := aliasMap[anchor := (i, i)];
      spec := Spec(spec.bound[anchor := []], spec.open);
    }

    // The range of an anchored collection starts at the entry just logged.
    method OpenAnchored(anchor: nat, ghost d: Delivered)
      requires Valid() && anchor > 0
      requires aliasedEvents != [] && aliasedEvents[|aliasedEvents| - 1] == EventEntry(d)
      modifies this`referenceStack, this`spec
      ensures Valid() && spec == old(Spec(spec.bound, spec.open + [Open(anchor, [d])]))
    {
      var i := |aliasedEvents| - 1;
      referenceStack := referenceStack + [Some((anchor, i))];
      spec := Spec(spec.bound, spec.open + [Open(anchor, [d])]);
      assert Flat(aliasedEvents, i + 1, |aliasedEvents|) == [];
      assert ReferenceStandsFor(aliasedEvents, Some((anchor, i)), Open(anchor, [d]));
    }

    // The innermost collection ends; if it was anchored its range is complete.
    method Close()
      requires Valid() && referenceStack != []
      modifies this`aliasMap, this`referenceStack, this`spec
      ensures Valid()
      ensures var top := old(spec.open)[|old(spec.open)| - 1];
              spec == old(Spec(if top.id > 0 then spec.bound[top.id := top.events] else spec.bound,
                               spec.open[..|spec.open| - 1]))
    {
      var top := referenceStack[|referenceStack| - 1];
      ghost var open := spec.open[|spec.open| - 1];
      assert ReferenceStandsFor(aliasedEvents, top, open);
      referenceStack := referenceStack[..|referenceStack| - 1];
      spec := Spec(spec.bound, spec.open[..|spec.open| - 1]);
      if top.Some? {
        aliasMap := aliasMap[top.value.0 := (top.value.1, |aliasedEvents|)];
        spec := Spec(spec.bound[open.id := open.events], spec.open);
      }
    }

    // Starts the replay of an alias, if anything is remembered under it.
    method Recall(id: nat, marker: Marker)
      requires Valid() && replayingAlias == []
      modifies this`aliasedEvents, this`replayingAlias, this`spec
      ensures Valid()
      ensures spec == SpecAfter(old(spec), Alias(id), marker)
      ensures ReplayOutput(aliasedEvents, replayingAlias)
           == if id in old(spec).bound then old(spec).bound[id] else []
    {
      if id in aliasMap {
        var range := aliasMap[id];
        if referenceStack != [] {
          ghost var log := aliasedEvents;
          Log(AliasEntry(range));
          FlatOfPrefix(log, [AliasEntry(range)], range.0, range.1);
        }
        assert Flat(aliasedEvents, range.0, range.1) == spec.bound[id];
        ReplayOfPushed(aliasedEvents, [], range);
        assert [] + [range] == [range];
        replayingAlias := replayingAlias + [range];
      }
    }

    lemma NothingReplayed()
      requires Valid() && replayingAlias == []
      ensures Unread() == SpecRun(spec, parser)
    {
    }

    // One turn of the loop on the next parser event.
    method ParserStep() returns (found: Result<Option<Delivered>, Marker>)
      requires Valid() && replayingAlias == [] && parser != []
      modifies this`parser, this`aliasedEvents, this`aliasMap, this`referenceStack, this`replayingAlias, this`spec
      ensures Valid() && parser == old(parser)[1..]
      ensures match found
              case Ok(None) => old(Unread()) == Unread()
              case Ok(Some(d)) => old(Unread()) == [Deliver(d)] + Unread()
              case Err(m) => old(Unread()) == [Failure(m)] + Unread()
    {
      var (event, marker) := parser[0];
      ghost var unread := Unread();
      NothingReplayed();
      parser := parser[1..];
      match event {
        case Alias(i) =>
          Recall(i, marker);
          found := Ok(None);
        case Content(e, _) =>
          Record(e, AnchorOf(event), marker);
          assert AnchorOf(Content(e, AnchorOf(event))) == AnchorOf(event);
          NothingReplayed();
          found := Ok(Some(Delivered(e, marker)));
        case StreamEnd =>
          found := Err(marker);
        case DocumentEnd =>
          found := Err(marker);
        case _ =>
          found := Ok(None);
      }
    }

    // The loop of `peek`: turns until an event, or an error, comes out.
    method Advance() returns (r: Result<Delivered, DecodeError>)
      requires Valid() && peeked == None
      modifies this`parser, this`aliasedEvents, this`aliasMap, this`referenceStack, this`replayingAlias, this`spec
      ensures Valid()
      ensures match r
              case Ok(d) => old(Unread()) == [Deliver(d)] + Unread()
              case Err(YamlDeserialize(m)) => old(Unread()) == [Failure(m)] + Unread()
              case Err(ParserFailed) => old(Unread()) == [] == Unread()
    {
      while true
        invariant Valid() && Unread() == old(Unread())
        decreases |parser|, ReplayCost(aliasedEvents, replayingAlias)
      {
        if replayingAlias != [] {
          var found := ReplayStep();
          if found.Some? {
            return Ok(found.value);
          }
        } else if parser == [] {
          return Err(ParserFailed);
        } else {
          var found := ParserStep();
          if found.Err? {
            return Err(YamlDeserialize(found.error));
          }
          if found.value.Some? {
            return Ok(found.value.value);
          }
        }
      }
    }

    // `peek`: the next event stays where it is; the error at the end of a document is used up.
    method Peek() returns (r: Result<Delivered, DecodeError>)
      requires Valid()
      modifies this
      ensures Valid()
      ensures match r
              case Ok(d) => peeked == Some(d) && Remaining() == old(Remaining()) && Remaining()[0] == Deliver(d)
              case Err(YamlDeserialize(m)) => old(Remaining()) == [Failure(m)] + Remaining() && peeked == None
              case Err(ParserFailed) => old(Remaining()) == [] == Remaining() && peeked == None
    {
      if peeked.Some? {
        return Ok(peeked.value);
      }
      r := Advance();
      if r.Ok? {
        peeked := Some(r.value);
      }
    }

    // `next`: one item of what remains, or the parser's error once nothing does.
    method Next() returns (r: Result<Delivered, DecodeError>)
      requires Valid()
      modifies this
      ensures Valid()
      ensures match r
              case Ok(d) => old(Remaining()) == [Deliver(d)] + Remaining()
              case Err(YamlDeserialize(m)) => old(Remaining()) == [Failure(m)] + Remaining()
              case Err(ParserFailed) => old(Remaining()) == [] == Remaining()
    {
      r := Peek();
      if r.Ok? {
        peeked := None;
      }
    }
  }
}
