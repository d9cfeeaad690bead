/** Who owns the scalars of a `for_each` tuple makes no difference to what an expression means. */
module TupleOwnership {
  import opened Wrappers
  import opened JsonValues
  import opened Expressions
  import opened SourceSyntax
  import opened FunctionCalls
  import opened SelectCorrectness

  predicate SameCows(a: seq<Cow>, b: seq<Cow>) {
    |a| == |b| && forall i :: 0 <= i < |a| ==> SameCow(a[i], b[i])
  }

  predicate SameTuple(a: Option<seq<Cow>>, b: Option<seq<Cow>>) {
    if a.Some? && b.Some? then SameCows(a.value, b.value) else a == b
  }

  predicate SameScope(a: Scope, b: Scope) {
    a.d == b.d && SameTuple(a.forEach, b.forEach)
  }

  lemma {:induction false} NegateRespectsSame(n: nat, a: Outcome, b: Outcome)
    requires SameOutcome(a, b)
    ensures SameOutcome(Negate(n, a), Negate(n, b))
  {
    if n > 0 {
      NegateRespectsSame(n - 1, a, b);
    }
  }

  lemma {:induction false} MeaningRespectsSame(cfg: Config, s: Source, a: Scope, b: Scope)
    requires SameScope(a, b)
    ensures SameOutcome(Meaning(cfg, s, a), Meaning(cfg, s, b))
    decreases s, 2
  {
    OperandRespectsSame(cfg, s.nots, s.atom, a, b);
    RestRespectsSame(cfg, s, a, b);
    ClimbRespectsSame(OperandMeaning(cfg, s.nots, s.atom, a), OperandMeaning(cfg, s.nots, s.atom, b),
                      RestMeaning(cfg, s, a), RestMeaning(cfg, s, b), 0);
  }

  lemma {:induction false} RestRespectsSame(cfg: Config, s: Source, a: Scope, b: Scope)
    requires SameScope(a, b)
    ensures SameApplied(RestMeaning(cfg, s, a), RestMeaning(cfg, s, b))
    decreases s, 1
  {
    if s.rest.Some? {
      OperandRespectsSame(cfg, s.rest.value.s.nots, s.rest.value.s.atom, a, b);
      RestRespectsSame(cfg, s.rest.value.s, a, b);
    }
  }

  lemma {:induction false} OperandRespectsSame(cfg: Config, nots: nat, atom: Atom, a: Scope, b: Scope)
    requires SameScope(a, b)
    ensures SameOutcome(OperandMeaning(cfg, nots, atom, a), OperandMeaning(cfg, nots, atom, b))
    decreases atom, 1
  {
    match atom
    case ValueAtom(v) =>
      ValueRespectsSame(cfg, v, a, b);
      NegateRespectsSame(nots, ValueMeaning(cfg, v, a), ValueMeaning(cfg, v, b));
    case Group(s) =>
      MeaningRespectsSame(cfg, s, a, b);
      NegateRespectsSame(nots, Meaning(cfg, s, a), Meaning(cfg, s, b));
  }

  lemma {:induction false} ValueRespectsSame(cfg: Config, v: SourceValue, a: Scope, b: Scope)
    requires SameScope(a, b)
    ensures SameOutcome(ValueMeaning(cfg, v, a), ValueMeaning(cfg, v, b))
    decreases v, 1
  {
    match v
    case StringLiteral(t) => TemplateRespectsSame(cfg, t, a, b);
    case PathSource(_, _) => PathRespectsSame(cfg, v, a, b);
    case _ =>
  }

  lemma {:induction false} TemplateRespectsSame(cfg: Config, t: seq<SourcePiece>, a: Scope, b: Scope)
    requires SameScope(a, b)
    ensures TemplateMeaning(cfg, t, a) == TemplateMeaning(cfg, t, b)
    decreases t, 1
  {
    if t != [] {
      PieceRespectsSame(cfg, t[0], a, b);
      TemplateRespectsSame(cfg, t[1..], a, b);
    }
  }

  lemma {:induction false} PieceRespectsSame(cfg: Config, piece: SourcePiece, a: Scope, b: Scope)
    requires SameScope(a, b)
    ensures PieceMeaning(cfg, piece, a) == PieceMeaning(cfg, piece, b)
    decreases piece, 1
  {
    if piece.HolePiece? {
      MeaningRespectsSame(cfg, piece.e, a, b);
    }
  }

  lemma {:induction false} PathRespectsSame(cfg: Config, path: SourceValue, a: Scope, b: Scope)
    requires path.PathSource? && SameScope(a, b)
    ensures SameOutcome(PathMeaning(cfg, path, a), PathMeaning(cfg, path, b))
    decreases path, 0
  {
    var rest := path.rest;
    match path.start
    case CallSource(f, args) =>
      CallRespectsSame(cfg, f, args, a, b);
      var x, y := CallMeaning(cfg, f, args, a), CallMeaning(cfg, f, args, b);
      if x.Ok? {
        SegmentsRespectSame(cfg, rest, x.value, y.value, a.forEach, b.forEach);
      }
    case Name(name) =>
      if name in cfg.vars {
        var c := Borrowed(cfg.vars[name]);
        SegmentsRespectSame(cfg, rest, c, c, a.forEach, b.forEach);
      } else if name == "for_each" && a.forEach.Some? {
        TupleRespectsSame(rest, a.forEach.value, b.forEach.value);
        if rest != [] {
          SegmentsRespectSame(cfg, rest[1..], ElementAt(a.forEach.value, rest[0]), ElementAt(b.forEach.value, rest[0]),
                              a.forEach, b.forEach);
        }
      } else {
        var c := IndexJson(cfg.lib, Borrowed(a.d), TextKey(name), cfg.noErr);
        if c.Ok? {
          SegmentsRespectSame(cfg, rest, c.value, c.value, a.forEach, b.forEach);
        }
      }
  }

  function ElementAt(t: seq<Cow>, s: SourceSegment): Cow {
    if s.IndexSegment? && s.n < |t| then t[s.n] else Owned(Null)
  }

  lemma TupleRespectsSame(rest: seq<SourceSegment>, t: seq<Cow>, u: seq<Cow>)
    requires SameCows(t, u)
    ensures CowValues(t) == CowValues(u)
    ensures rest != [] ==> SameCow(ElementAt(t, rest[0]), ElementAt(u, rest[0]))
  {
  }

  lemma {:induction false} SegmentsRespectSame(
    cfg: Config, rest: seq<SourceSegment>, x: Cow, y: Cow, a: Option<seq<Cow>>, b: Option<seq<Cow>>)
    requires SameCow(x, y) && SameTuple(a, b)
    ensures SameOutcome(SegmentsMeaning(cfg, rest, x, a), SegmentsMeaning(cfg, rest, y, b))
    decreases rest, 1
  {
    if rest != [] {
      SegmentRespectsSame(cfg, rest[0], x, y, a, b);
      var key := SegmentMeaning(cfg, rest[0], x, a);
      if key.Ok? {
        IndexingRespectsSame(cfg.lib, x, y, key.value, cfg.noErr);
        var p, q := IndexJson(cfg.lib, x, key.value, cfg.noErr), IndexJson(cfg.lib, y, key.value, cfg.noErr);
        if p.Ok? {
          SegmentsRespectSame(cfg, rest[1..], p.value, q.value, a, b);
        }
      }
    }
  }

  lemma {:induction false} SegmentRespectsSame(
    cfg: Config, s: SourceSegment, x: Cow, y: Cow, a: Option<seq<Cow>>, b: Option<seq<Cow>>)
    requires SameCow(x, y) && SameTuple(a, b)
    ensures SegmentMeaning(cfg, s, x, a) == SegmentMeaning(cfg, s, y, b)
    decreases s, 1
  {
    if s.KeySegment? {
      TemplateRespectsSame(cfg, s.t, Scope(x.v, a), Scope(y.v, b));
    }
  }

  lemma {:induction false} CallRespectsSame(cfg: Config, f: FunctionName, args: seq<Source>, a: Scope, b: Scope)
    requires SameScope(a, b)
    ensures SameOutcome(CallMeaning(cfg, f, args, a), CallMeaning(cfg, f, args, b))
    decreases args, 1
  {
    match f
    case IfName =>
      if |args| == 3 {
        ArgumentsRespectSame(cfg, args, a, b);
      }
    case JoinName =>
      if |args| == 2 || |args| == 3 {
        ArgumentsRespectSame(cfg, args, a, b);
      }
    case MinName => BestRespectsSame(cfg, true, args, None, a, b);
    case MaxName => BestRespectsSame(cfg, false, args, None, a, b);
    case StartPadName => PadRespectsSame(cfg, true, args, a, b);
    case EndPadName => PadRespectsSame(cfg, false, args, a, b);
  }

  lemma {:induction false} ArgumentsRespectSame(cfg: Config, args: seq<Source>, a: Scope, b: Scope)
    requires SameScope(a, b)
    ensures forall i :: 0 <= i < |args| ==> SameOutcome(Meaning(cfg, args[i], a), Meaning(cfg, args[i], b))
    decreases args, 0
  {
    forall i | 0 <= i < |args|
      ensures SameOutcome(Meaning(cfg, args[i], a), Meaning(cfg, args[i], b))
    {
      MeaningRespectsSame(cfg, args[i], a, b);
    }
  }

  lemma {:induction false} PadRespectsSame(cfg: Config, start: bool, args: seq<Source>, a: Scope, b: Scope)
    requires SameScope(a, b)
    ensures SameOutcome(PadMeaning(cfg, start, args, a), PadMeaning(cfg, start, args, b))
    decreases args, 0
  {
    if |args| == 3 {
      MeaningRespectsSame(cfg, args[0], a, b);
      MeaningRespectsSame(cfg, args[1], a, b);
      MeaningRespectsSame(cfg, args[2], a, b);
    }
  }

  lemma {:induction false} BestRespectsSame(
    cfg: Config, min: bool, args: seq<Source>, left: Option<(real, Json)>, a: Scope, b: Scope)
    requires SameScope(a, b)
    ensures BestMeaning(cfg, min, args, left, a) == BestMeaning(cfg, min, args, left, b)
    decreases args, 0
  {
    if args != [] {
      MeaningRespectsSame(cfg, args[0], a, b);
      var c := Meaning(cfg, args[0], a);
      if c.Ok? {
        BestRespectsSame(cfg, min, args[1..], MinMaxStep(min, left, c.value.v), a, b);
      }
    }
  }
}
