/**
 The compiled expression evaluates to what was written, on all data and for every `for_each` tuple:
 operator splitting, `not` handling and every folding step together.
 */
module SelectCorrectness {
  import opened Wrappers
  import opened JsonValues
  import opened Expressions
  import opened Precedence
  import opened References
  import opened SourceSyntax
  import opened FunctionCalls
  import opened SelectParser
  import opened SelectNames

  // ---------- nothing downstream tells indistinguishable values apart ----------

  lemma SameOutcomeTransitive(a: Outcome, b: Outcome, c: Outcome)
    requires SameOutcome(a, b) && SameOutcome(b, c)
    ensures SameOutcome(a, c)
  {
  }

  lemma IndexingRespectsSame(lib: Library, a: Cow, b: Cow, key: IndexKey, noErr: bool)
    requires SameCow(a, b)
    ensures SameOutcome(IndexJson(lib, a, key, noErr), IndexJson(lib, b, key, noErr))
  {
  }

  predicate SameApplied(a: seq<Applied>, b: seq<Applied>) {
    && |a| == |b|
    && forall i :: 0 <= i < |a| ==> a[i].o == b[i].o && SameOutcome(a[i].operand, b[i].operand)
  }

  lemma {:induction false} ClimbRespectsSame(x: Outcome, y: Outcome, a: seq<Applied>, b: seq<Applied>, k: nat)
    requires SameOutcome(x, y) && SameApplied(a, b)
    ensures SameOutcome(Climb(x, a, k).0, Climb(y, b, k).0)
    ensures SameApplied(Climb(x, a, k).1, Climb(y, b, k).1)
    decreases |a|
  {
    if a != [] && Level(a[0].o) >= k {
      assert a[0].o == b[0].o && SameOutcome(a[0].operand, b[0].operand);
      var q := Level(a[0].o) + 1;
      assert SameApplied(a[1..], b[1..]);
      ClimbRespectsSame(a[0].operand, b[0].operand, a[1..], b[1..], q);
      var (ra, oa) := Climb(a[0].operand, a[1..], q);
      var (rb, ob) := Climb(b[0].operand, b[1..], q);
      ClimbRespectsSame(ApplyInfix(a[0].o, x, ra), ApplyInfix(b[0].o, y, rb), oa, ob, k);
    }
  }

  lemma NegateIsFlag(n: nat, r: Outcome)
    ensures Negate(n, r) == ApplyNot(NotFlag(n), r)
  {
    if n > 0 {
      NegateIsFlag(n - 1, r);
    }
  }

  // Marks in front of parentheses: the merged flag is right except when odd meets odd.
  lemma MergedFlag(nots: nat, inner: Option<bool>, v: Outcome)
    ensures SameOutcome(ApplyNot(MergeNot(inner, NotFlag(nots)), v), Negate(nots, ApplyNot(inner, v)))
            || (nots % 2 == 1 && inner == Some(true))
  {
    NegateIsFlag(nots, ApplyNot(inner, v));
    if inner.Some? {
      assert inner == Some(inner.value);
      assert inner.value == true || inner.value == false;
    }
  }

  // ... and there it is wrong on every value that evaluates.
  lemma OddMeetsOddIsWrong(nots: nat, v: Cow)
    requires nots % 2 == 1
    ensures !SameOutcome(ApplyNot(MergeNot(Some(true), NotFlag(nots)), Ok(v)),
                         Negate(nots, ApplyNot(Some(true), Ok(v))))
  {
    NegateIsFlag(nots, ApplyNot(Some(true), Ok(v)));
  }

  // ---------- the shape of compiled operands ----------

  lemma {:induction false} SourceShape(cfg: Config, s: Source)
    requires CompileSource(cfg, s).Ok? && Clean(s)
    ensures var e := CompileSource(cfg, s).value.x;
            && e.not == (if s.rest.None? then OperandFlag(s.nots, s.atom) else None)
            && (e.op.None? <==> s.rest.None? && IsLone(s.atom))
            && (e.op.None? ==> e.lhs.Plain?)
            && !AbsorbsNot(CompileItems(cfg, s).value.x)
    decreases s, 2
  {
    var items := CompileItems(cfg, s).value.x;
    ItemsAbsorb(cfg, s, 0);
    AbsorptionFromLeft(items);
    OperandShape(cfg, s.nots, s.atom);
    var t := TreeOf(items, 0);
    if s.rest.None? {
      SingleOperand(items, 0);
    } else {
      NotStaysPutExactlyWithoutAbsorption(t);
      AbsorptionByPosition(t, 0);
      assert t.Node?;
      FaithfulHasNoFlag(t);
    }
  }

  lemma FaithfulHasNoFlag(t: Tree)
    requires t.Node?
    ensures Faithful(t).not.None? && Faithful(t).op.Some?
  {
  }

  lemma {:induction false} OperandShape(cfg: Config, nots: nat, atom: Atom)
    requires CompileOperand(cfg, nots, atom).Ok? && CleanOperand(nots, atom)
    ensures var e := CompileOperand(cfg, nots, atom).value.x;
            && e.not == OperandFlag(nots, atom)
            && (e.op.None? <==> IsLone(atom))
            && (e.op.None? ==> e.lhs.Plain?)
    decreases atom, 1
  {
    if atom.Group? {
      SourceShape(cfg, atom.s);
    }
  }

  // Absorption, read from the left: `before` is the level of the operator in front, 0 at the start.
  predicate AbsorbsFrom(items: seq<Item>, before: nat)
    requires Alternating(items)
  {
    |items| > 1 && (
      assert items[1].Operator?;
      assert Alternating(items[2..]) by {
        assert forall j :: 0 <= j < |items| - 2 ==> items[2..][j] == items[j + 2];
      }
      || (CarriesNot(items[0].e) && before < Level(items[1].o))
      || AbsorbsFrom(items[2..], Level(items[1].o)))
  }

  predicate AbsorbedAfter(items: seq<Item>, before: nat, i: nat)
    requires Alternating(items)
  {
    && i + 1 < |items| && i % 2 == 0
    && CarriesNot(items[i].e)
    && (if i == 0 then before else Level(items[i - 1].o)) < Level(items[i + 1].o)
  }

  lemma {:induction false} AbsorbedSomewhere(items: seq<Item>, before: nat)
    requires Alternating(items)
    ensures AbsorbsFrom(items, before) <==> exists i: nat :: i < |items| && AbsorbedAfter(items, before, i)
    decreases |items|
  {
    if |items| > 1 {
      var rest, o := items[2..], items[1].o;
      assert forall j :: 0 <= j < |rest| ==> rest[j] == items[j + 2];
      AbsorbedSomewhere(rest, Level(o));
      forall i: nat | i < |rest|
        ensures AbsorbedAfter(rest, Level(o), i) <==> AbsorbedAfter(items, before, i + 2)
      {
      }
      if i: nat :| i < |items| && AbsorbedAfter(items, before, i) {
        if i > 0 {
          assert AbsorbedAfter(rest, Level(o), i - 2);
        }
      }
      if CarriesNot(items[0].e) && before < Level(o) {
        assert AbsorbedAfter(items, before, 0);
      }
    }
  }

  lemma AbsorptionFromLeft(items: seq<Item>)
    requires Alternating(items)
    ensures AbsorbsNot(items) <==> AbsorbsFrom(items, 0)
  {
    AbsorbedSomewhere(items, 0);
    forall i: nat | i < |items|
      ensures AbsorbedAt(items, i) <==> AbsorbedAfter(items, 0, i)
    {
      if i + 1 < |items| && i % 2 == 0 {
        assert items[i + 1].Operator? && 1 <= Level(items[i + 1].o);
      }
    }
  }

  lemma {:induction false} ItemsAbsorb(cfg: Config, s: Source, before: nat)
    requires CompileItems(cfg, s).Ok? && CleanOperands(s)
    ensures AbsorbsFrom(CompileItems(cfg, s).value.x, before) <==> MarksAbsorb(s, before)
    decreases s, 1
  {
    OperandShape(cfg, s.nots, s.atom);
    if s.rest.Some? {
      ItemsAbsorb(cfg, s.rest.value.s, Level(s.rest.value.o));
      var items := CompileItems(cfg, s).value.x;
      assert items[2..] == CompileItems(cfg, s.rest.value.s).value.x;
    }
  }

  // ---------- folding helpers ----------

  lemma SimplifyingPreserves(lib: Library, noErr: bool, e: Expression, sc: Scope)
    requires e.op.None? ==> e.lhs.Plain?
    ensures match SimplifyToJson(e)
            case SimpleValue(j) => SameOutcome(EvalExpression(lib, noErr, e, sc), Ok(Borrowed(j)))
            case Unsimplified(k) => k == e
    ensures SameOutcome(EvalArgument(lib, noErr, FromExpression(e), sc), EvalExpression(lib, noErr, e, sc))
  {
    if SimplifyToJson(e).SimpleValue? {
      var j := SimplifyToJson(e).j;
      assert EvalLhs(lib, noErr, e.lhs, sc) == EvalValue(lib, noErr, e.lhs.v, sc) == Ok(Borrowed(e.lhs.v.j));
      ConstantEvaluates(lib, noErr, ArgValue(Literal(j)), sc);
    }
  }

  // An expression that is neither an operator application nor a plain value would lose its `not`.
  lemma SimplifyingNeedsAPlainValue(lib: Library, noErr: bool, j: Json, sc: Scope)
    ensures var e := Expression(Some(true), Nested(Expression(None, Plain(Literal(j)), None)), None);
            && SimplifyToJson(e) == SimpleValue(j)
            && !SameOutcome(EvalExpression(lib, noErr, e, sc), Ok(Borrowed(j)))
  {
    var inner := Expression(None, Plain(Literal(j)), None);
    var e := Expression(Some(true), Nested(inner), None);
    ConstantEvaluates(lib, noErr, ArgValue(Literal(j)), sc);
    assert EvalLhs(lib, noErr, inner.lhs, sc) == Ok(Borrowed(j));
    assert EvalLhs(lib, noErr, e.lhs, sc) == EvalExpression(lib, noErr, inner, sc) == Ok(Borrowed(j));
  }

  predicate OwnsOnlyScalars(r: Outcome) {
    r.Ok? && r.value.owned ==> IsScalar(r.value.v)
  }

  lemma {:induction false} SegmentsOwnOnlyScalars(
    lib: Library, noErr: bool, rest: seq<Segment>, c: Cow, forEach: Option<seq<Cow>>)
    requires c.owned ==> IsScalar(c.v)
    ensures OwnsOnlyScalars(EvalSegments(lib, noErr, rest, c, forEach))
    decreases rest
  {
    if rest != [] {
      var key := EvalSegment(lib, noErr, rest[0], c, forEach);
      if key.Ok? {
        var next := IndexJson(lib, c, key.value, noErr);
        if next.Ok? {
          SegmentsOwnOnlyScalars(lib, noErr, rest[1..], next.value, forEach);
        }
      }
    }
  }

  // Walking a path early gives what walking it late gives, in every scope.
  lemma FoldedPathEvaluates(cfg: Config, p: Path, names: set<string>, sc: Scope)
    requires FoldPath(cfg, p, names).Ok?
    requires p.start.Constant? ==> PathNames(p) <= names
    ensures SameOutcome(EvalValue(cfg.lib, cfg.noErr, FoldPath(cfg, p, names).value.x, sc),
                        EvalPath(cfg.lib, cfg.noErr, p, sc))
  {
    if p.start.Constant? && names == {} {
      PathDependsOnNames(cfg.lib, cfg.noErr, p, Scope(Null, None), sc);
      SegmentsOwnOnlyScalars(cfg.lib, cfg.noErr, p.rest, Borrowed(p.start.j), sc.forEach);
    } else {
      assert EvalValue(cfg.lib, cfg.noErr, PathValue(p), sc) == EvalPath(cfg.lib, cfg.noErr, p, sc);
    }
  }

  function JoinResults(a: Result<string, Error>, b: Result<string, Error>): Result<string, Error> {
    var x :- a;
    var y :- b;
    Ok(x + y)
  }

  lemma JoinAssociates(a: Result<string, Error>, b: Result<string, Error>, c: Result<string, Error>)
    ensures JoinResults(JoinResults(a, b), c) == JoinResults(a, JoinResults(b, c))
  {
    if a.Ok? && b.Ok? && c.Ok? {
      assert (a.value + b.value) + c.value == a.value + (b.value + c.value);
    }
  }

  lemma {:induction false} PiecesConcat(lib: Library, noErr: bool, a: seq<Piece>, b: seq<Piece>, sc: Scope)
    ensures EvalPieces(lib, noErr, a + b, sc)
         == JoinResults(EvalPieces(lib, noErr, a, sc), EvalPieces(lib, noErr, b, sc))
  {
    if a == [] {
      assert a + b == b;
      if EvalPieces(lib, noErr, b, sc).Ok? {
        assert "" + EvalPieces(lib, noErr, b, sc).value == EvalPieces(lib, noErr, b, sc).value;
      }
    } else {
      PiecesConcat(lib, noErr, a[1..], b, sc);
      assert (a + b)[1..] == a[1..] + b;
      JoinAssociates(EvalPiece(lib, noErr, a[0], sc), EvalPieces(lib, noErr, a[1..], sc),
                     EvalPieces(lib, noErr, b, sc));
    }
  }

  lemma OnePiece(lib: Library, noErr: bool, piece: Piece, sc: Scope)
    ensures EvalPieces(lib, noErr, [piece], sc) == EvalPiece(lib, noErr, piece, sc)
  {
    assert EvalPieces(lib, noErr, [piece][1..], sc) == Ok("");
    var r := EvalPiece(lib, noErr, piece, sc);
    if r.Ok? {
      assert r.value + "" == r.value;
    }
  }

  lemma PushedPieceEvaluates(
    lib: Library, noErr: bool, done: seq<Piece>, source: SourcePiece, piece: Piece, sc: Scope)
    ensures EvalPieces(lib, noErr, PushPiece(done, source, piece), sc)
         == JoinResults(EvalPieces(lib, noErr, done, sc), EvalPiece(lib, noErr, piece, sc))
  {
    OnePiece(lib, noErr, piece, sc);
    PiecesConcat(lib, noErr, done, [piece], sc);
    if source.HolePiece? && piece.Text? && done != [] && done[|done| - 1].Text? {
      MergedTextEvaluates(lib, noErr, done[..|done| - 1], done[|done| - 1].s, piece.s, sc);
      assert done == done[..|done| - 1] + [done[|done| - 1]];
    }
  }

  lemma MergedTextEvaluates(lib: Library, noErr: bool, done: seq<Piece>, a: string, b: string, sc: Scope)
    ensures EvalPieces(lib, noErr, done + [Text(a + b)], sc)
         == JoinResults(EvalPieces(lib, noErr, done + [Text(a)], sc), Ok(b))
  {
    OnePiece(lib, noErr, Text(a), sc);
    OnePiece(lib, noErr, Text(a + b), sc);
    PiecesConcat(lib, noErr, done, [Text(a)], sc);
    PiecesConcat(lib, noErr, done, [Text(a + b)], sc);
    JoinAssociates(EvalPieces(lib, noErr, done, sc), Ok(a), Ok(b));
  }

  // ---------- the compiled expression means what was written ----------

  lemma {:induction false} CompiledSourceMeans(cfg: Config, s: Source, sc: Scope)
    requires CompileSource(cfg, s).Ok? && Clean(s)
    ensures SameOutcome(EvalExpression(cfg.lib, cfg.noErr, CompileSource(cfg, s).value.x, sc), Meaning(cfg, s, sc))
    decreases s, 2
  {
    var items := CompileItems(cfg, s).value.x;
    SourceShape(cfg, s);
    CompiledItemsMean(cfg, s, sc);
    BuiltExpressionClimbs(cfg.lib, cfg.noErr, items, sc);
    ClimbRespectsSame(EvalExpression(cfg.lib, cfg.noErr, items[0].e, sc), OperandMeaning(cfg, s.nots, s.atom, sc),
                      ItemOperands(cfg.lib, cfg.noErr, items, sc), RestMeaning(cfg, s, sc), 0);
  }

  lemma {:induction false} CompiledItemsMean(cfg: Config, s: Source, sc: Scope)
    requires CompileItems(cfg, s).Ok? && CleanOperands(s)
    ensures var items := CompileItems(cfg, s).value.x;
            && SameOutcome(EvalExpression(cfg.lib, cfg.noErr, items[0].e, sc), OperandMeaning(cfg, s.nots, s.atom, sc))
            && SameApplied(ItemOperands(cfg.lib, cfg.noErr, items, sc), RestMeaning(cfg, s, sc))
    decreases s, 1
  {
    CompiledOperandMeans(cfg, s.nots, s.atom, sc);
    if s.rest.Some? {
      var items := CompileItems(cfg, s).value.x;
      CompiledItemsMean(cfg, s.rest.value.s, sc);
      assert items[2..] == CompileItems(cfg, s.rest.value.s).value.x;
    }
  }

  lemma {:induction false} CompiledOperandMeans(cfg: Config, nots: nat, atom: Atom, sc: Scope)
    requires CompileOperand(cfg, nots, atom).Ok? && CleanOperand(nots, atom)
    ensures SameOutcome(EvalExpression(cfg.lib, cfg.noErr, CompileOperand(cfg, nots, atom).value.x, sc),
                        OperandMeaning(cfg, nots, atom, sc))
    decreases atom, 1
  {
    match atom
    case ValueAtom(v) =>
      CompiledValueMeans(cfg, v, sc);
      var x := CompileValue(cfg, v).value.x;
      assert EvalLhs(cfg.lib, cfg.noErr, Plain(x), sc) == EvalValue(cfg.lib, cfg.noErr, x, sc);
      NegateIsFlag(nots, ValueMeaning(cfg, v, sc));
    case Group(s) =>
      CompiledSourceMeans(cfg, s, sc);
      SourceShape(cfg, s);
      MarkedGroupMeans(cfg, nots, CompileSource(cfg, s).value.x, Meaning(cfg, s, sc), sc);
  }

  // Marks put on a compiled parenthesised expression negate what it evaluates to.
  lemma MarkedGroupMeans(cfg: Config, nots: nat, e: Expression, meaning: Outcome, sc: Scope)
    requires SameOutcome(EvalExpression(cfg.lib, cfg.noErr, e, sc), meaning)
    requires !(nots % 2 == 1 && e.not == Some(true))
    ensures SameOutcome(EvalExpression(cfg.lib, cfg.noErr, e.(not := MergeNot(e.not, NotFlag(nots))), sc),
                        Negate(nots, meaning))
  {
    var v := EvalExpression(cfg.lib, cfg.noErr, e.(not := None), sc);
    MergedFlag(nots, e.not, v);
    NegateIsFlag(nots, meaning);
    NegateIsFlag(nots, ApplyNot(e.not, v));
  }

  lemma {:induction false} CompiledValueMeans(cfg: Config, v: SourceValue, sc: Scope)
    requires CompileValue(cfg, v).Ok? && CleanValue(v)
    ensures SameOutcome(EvalValue(cfg.lib, cfg.noErr, CompileValue(cfg, v).value.x, sc), ValueMeaning(cfg, v, sc))
    decreases v, 1
  {
    match v
    case StringLiteral(t) =>
      CompiledTemplateMeans(cfg, t, Compiled([], {}), sc);
      FinishedTemplate(cfg, t, sc);
    case PathSource(start, rest) =>
      var p := Path(CompileStart(cfg, start).value.x, CompileSegments(cfg, rest).value.x);
      var names := CompileStart(cfg, start).value.names + CompileSegments(cfg, rest).value.names;
      if p.start.Constant? {
        SegmentsNamesCovered(cfg, rest);
      }
      FoldedPathEvaluates(cfg, p, names, sc);
      CompiledPathMeans(cfg, v, sc);
    case _ =>
  }

  // A finished template, whether it became a literal or not, evaluates to its text.
  lemma FinishedTemplate(cfg: Config, t: seq<SourcePiece>, sc: Scope)
    requires CompileTemplate(cfg, t, Compiled([], {})).Ok?
    requires EvalPieces(cfg.lib, cfg.noErr, CompileTemplate(cfg, t, Compiled([], {})).value.x, sc)
          == JoinResults(Ok(""), TemplateMeaning(cfg, t, sc))
    ensures SameOutcome(EvalValue(cfg.lib, cfg.noErr, CompileValue(cfg, StringLiteral(t)).value.x, sc),
                        ValueMeaning(cfg, StringLiteral(t), sc))
  {
    var pieces := CompileTemplate(cfg, t, Compiled([], {})).value.x;
    var r := TemplateMeaning(cfg, t, sc);
    if r.Ok? {
      assert "" + r.value == r.value;
    }
    if IsSimple(pieces) {
      assert pieces == [pieces[0]];
      OnePiece(cfg.lib, cfg.noErr, pieces[0], sc);
    }
    var x := if IsSimple(pieces) then Literal(String(pieces[0].s)) else Template(pieces);
    assert CompileValue(cfg, StringLiteral(t)).value.x == x;
  }

  lemma {:induction false} CompiledTemplateMeans(
    cfg: Config, t: seq<SourcePiece>, done: Compiled<seq<Piece>>, sc: Scope)
    requires CompileTemplate(cfg, t, done).Ok? && CleanTemplate(t)
    ensures EvalPieces(cfg.lib, cfg.noErr, CompileTemplate(cfg, t, done).value.x, sc)
         == JoinResults(EvalPieces(cfg.lib, cfg.noErr, done.x, sc), TemplateMeaning(cfg, t, sc))
    decreases t, 1
  {
    var before := EvalPieces(cfg.lib, cfg.noErr, done.x, sc);
    if t == [] {
      if before.Ok? {
        assert before.value + "" == before.value;
      }
    } else {
      var piece := CompilePiece(cfg, t[0]).value;
      var pushed := Compiled(PushPiece(done.x, t[0], piece.x), done.names + piece.names);
      CompiledPieceMeans(cfg, t[0], sc);
      PushedPieceEvaluates(cfg.lib, cfg.noErr, done.x, t[0], piece.x, sc);
      CompiledTemplateMeans(cfg, t[1..], pushed, sc);
      JoinAssociates(before, PieceMeaning(cfg, t[0], sc), TemplateMeaning(cfg, t[1..], sc));
    }
  }

  lemma {:induction false} CompiledPieceMeans(cfg: Config, piece: SourcePiece, sc: Scope)
    requires CompilePiece(cfg, piece).Ok? && CleanPiece(piece)
    ensures EvalPiece(cfg.lib, cfg.noErr, CompilePiece(cfg, piece).value.x, sc) == PieceMeaning(cfg, piece, sc)
    decreases piece, 1
  {
    if piece.HolePiece? {
      CompiledSourceMeans(cfg, piece.e, sc);
      SourceShape(cfg, piece.e);
      SimplifyingPreserves(cfg.lib, cfg.noErr, CompileSource(cfg, piece.e).value.x, sc);
    }
  }

  lemma {:induction false} CompiledPathMeans(cfg: Config, path: SourceValue, sc: Scope)
    requires path.PathSource? && CleanValue(path)
    requires CompileStart(cfg, path.start).Ok? && CompileSegments(cfg, path.rest).Ok?
    ensures var p := Path(CompileStart(cfg, path.start).value.x, CompileSegments(cfg, path.rest).value.x);
            SameOutcome(EvalPath(cfg.lib, cfg.noErr, p, sc), PathMeaning(cfg, path, sc))
    decreases path, 0
  {
    var rest := path.rest;
    match path.start
    case CallSource(f, args) =>
      CompiledCallMeans(cfg, f, args, sc);
      var c := CallMeaning(cfg, f, args, sc);
      var start := CompileStart(cfg, path.start).value.x;
      var d := if start.Call? then EvalCall(cfg.lib, cfg.noErr, start.f, sc) else Ok(Borrowed(start.j));
      if c.Ok? {
        CompiledSegmentsMean(cfg, rest, d.value, c.value, sc.forEach);
      }
    case Name(name) =>
      if name in cfg.vars {
        CompiledSegmentsMean(cfg, rest, Borrowed(cfg.vars[name]), Borrowed(cfg.vars[name]), sc.forEach);
      } else if name == "for_each" && sc.forEach.Some? {
        if rest != [] {
          var t := sc.forEach.value;
          var c := if rest[0].IndexSegment? && rest[0].n < |t| then t[rest[0].n] else Owned(Null);
          assert CompileSegments(cfg, rest).value.x[1..] == CompileSegments(cfg, rest[1..]).value.x;
          CompiledSegmentsMean(cfg, rest[1..], c, c, sc.forEach);
        }
      } else {
        var c := IndexJson(cfg.lib, Borrowed(sc.d), TextKey(name), cfg.noErr);
        if c.Ok? {
          CompiledSegmentsMean(cfg, rest, c.value, c.value, sc.forEach);
        }
      }
  }

  lemma {:induction false} CompiledSegmentsMean(
    cfg: Config, rest: seq<SourceSegment>, a: Cow, b: Cow, forEach: Option<seq<Cow>>)
    requires CompileSegments(cfg, rest).Ok? && CleanSegments(rest) && SameCow(a, b)
    ensures SameOutcome(EvalSegments(cfg.lib, cfg.noErr, CompileSegments(cfg, rest).value.x, a, forEach),
                        SegmentsMeaning(cfg, rest, b, forEach))
    decreases rest, 1
  {
    if rest != [] {
      CompiledSegmentMeans(cfg, rest[0], a, b, forEach);
      var key := SegmentMeaning(cfg, rest[0], b, forEach);
      if key.Ok? {
        IndexingRespectsSame(cfg.lib, a, b, key.value, cfg.noErr);
        var x, y := IndexJson(cfg.lib, a, key.value, cfg.noErr), IndexJson(cfg.lib, b, key.value, cfg.noErr);
        if x.Ok? {
          CompiledSegmentsMean(cfg, rest[1..], x.value, y.value, forEach);
        }
      }
    }
  }

  lemma {:induction false} CompiledSegmentMeans(
    cfg: Config, s: SourceSegment, a: Cow, b: Cow, forEach: Option<seq<Cow>>)
    requires CompileSegment(cfg, s).Ok? && CleanSegment(s) && SameCow(a, b)
    ensures EvalSegment(cfg.lib, cfg.noErr, CompileSegment(cfg, s).value.x, a, forEach)
         == SegmentMeaning(cfg, s, b, forEach)
    decreases s, 1
  {
    if s.KeySegment? {
      var sc := Scope(a.v, forEach);
      CompiledTemplateMeans(cfg, s.t, Compiled([], {}), sc);
      var pieces := CompileTemplate(cfg, s.t, Compiled([], {})).value.x;
      var r := TemplateMeaning(cfg, s.t, sc);
      if r.Ok? {
        assert "" + r.value == r.value;
      }
      if IsSimple(pieces) {
        assert pieces == [pieces[0]];
        OnePiece(cfg.lib, cfg.noErr, pieces[0], sc);
      }
    }
  }

  lemma {:induction false} CompiledCallMeans(cfg: Config, f: FunctionName, args: seq<Source>, sc: Scope)
    requires CompileStart(cfg, CallSource(f, args)).Ok? && CleanArguments(args)
    ensures var start := CompileStart(cfg, CallSource(f, args)).value.x;
            match start
            case Call(k) => SameOutcome(EvalCall(cfg.lib, cfg.noErr, k, sc), CallMeaning(cfg, f, args, sc))
            case Constant(j) => SameOutcome(Ok(Borrowed(j)), CallMeaning(cfg, f, args, sc))
            case Ident(_) => false
    decreases args, 2
  {
    var compiled := CompileArguments(cfg, args).value.x;
    FoldingPreservesEvaluation(cfg.lib, cfg.noErr, f, compiled, sc);
    match f
    case IfName => CompiledIfMeans(cfg, args, sc);
    case JoinName => CompiledJoinMeans(cfg, args, sc);
    case MinName => CompiledBestMeans(cfg, true, args, None, sc);
    case MaxName => CompiledBestMeans(cfg, false, args, None, sc);
    case StartPadName => CompiledPadMeans(cfg, true, args, sc);
    case EndPadName => CompiledPadMeans(cfg, false, args, sc);
  }

  lemma {:induction false} CompiledArgumentMeans(cfg: Config, args: seq<Source>, i: nat, sc: Scope)
    requires CompileArguments(cfg, args).Ok? && CleanArguments(args) && i < |args|
    ensures SameOutcome(EvalArgument(cfg.lib, cfg.noErr, CompileArguments(cfg, args).value.x[i], sc),
                        Meaning(cfg, args[i], sc))
    decreases args, 0
  {
    if i == 0 {
      CompiledSourceMeans(cfg, args[0], sc);
      ArgumentMeans(cfg, args[0], sc);
    } else {
      CompiledArgumentMeans(cfg, args[1..], i - 1, sc);
    }
  }

  lemma ArgumentMeans(cfg: Config, s: Source, sc: Scope)
    requires CompileSource(cfg, s).Ok? && Clean(s)
    requires SameOutcome(EvalExpression(cfg.lib, cfg.noErr, CompileSource(cfg, s).value.x, sc), Meaning(cfg, s, sc))
    ensures SameOutcome(EvalArgument(cfg.lib, cfg.noErr, FromExpression(CompileSource(cfg, s).value.x), sc),
                        Meaning(cfg, s, sc))
  {
    var e := CompileSource(cfg, s).value.x;
    SourceShape(cfg, s);
    SimplifyingPreserves(cfg.lib, cfg.noErr, e, sc);
    SameOutcomeTransitive(EvalArgument(cfg.lib, cfg.noErr, FromExpression(e), sc),
                          EvalExpression(cfg.lib, cfg.noErr, e, sc), Meaning(cfg, s, sc));
  }

  lemma {:induction false} CompiledIfMeans(cfg: Config, args: seq<Source>, sc: Scope)
    requires CompileArguments(cfg, args).Ok? && CleanArguments(args)
    requires NewCall(cfg.lib, IfName, CompileArguments(cfg, args).value.x).Ok?
    ensures SameOutcome(
              EvalCall(cfg.lib, cfg.noErr, Unfolded(cfg.lib, IfName, CompileArguments(cfg, args).value.x), sc),
              CallMeaning(cfg, IfName, args, sc))
    decreases args, 1
  {
    CompiledArgumentMeans(cfg, args, 0, sc);
    CompiledArgumentMeans(cfg, args, 1, sc);
    CompiledArgumentMeans(cfg, args, 2, sc);
  }

  lemma {:induction false} CompiledJoinMeans(cfg: Config, args: seq<Source>, sc: Scope)
    requires CompileArguments(cfg, args).Ok? && CleanArguments(args)
    requires NewCall(cfg.lib, JoinName, CompileArguments(cfg, args).value.x).Ok?
    ensures SameOutcome(
              EvalCall(cfg.lib, cfg.noErr, Unfolded(cfg.lib, JoinName, CompileArguments(cfg, args).value.x), sc),
              CallMeaning(cfg, JoinName, args, sc))
    decreases args, 1
  {
    var compiled := CompileArguments(cfg, args).value.x;
    CompiledArgumentMeans(cfg, args, 0, sc);
    CompiledArgumentMeans(cfg, args, 1, sc);
    ConstantEvaluates(cfg.lib, cfg.noErr, compiled[1], sc);
    if |args| == 3 {
      CompiledArgumentMeans(cfg, args, 2, sc);
      ConstantEvaluates(cfg.lib, cfg.noErr, compiled[2], sc);
    }
  }

  lemma {:induction false} CompiledPadMeans(cfg: Config, start: bool, args: seq<Source>, sc: Scope)
    requires CompileArguments(cfg, args).Ok? && CleanArguments(args)
    requires NewPad(cfg.lib, start, CompileArguments(cfg, args).value.x).Ok?
    ensures var f := if start then StartPadName else EndPadName;
            SameOutcome(
              EvalCall(cfg.lib, cfg.noErr, Unfolded(cfg.lib, f, CompileArguments(cfg, args).value.x), sc),
              CallMeaning(cfg, f, args, sc))
    decreases args, 1
  {
    var compiled := CompileArguments(cfg, args).value.x;
    CompiledArgumentMeans(cfg, args, 0, sc);
    CompiledArgumentMeans(cfg, args, 1, sc);
    CompiledArgumentMeans(cfg, args, 2, sc);
    ConstantEvaluates(cfg.lib, cfg.noErr, compiled[1], sc);
    ConstantEvaluates(cfg.lib, cfg.noErr, compiled[2], sc);
  }

  lemma {:induction false} CompiledBestMeans(
    cfg: Config, min: bool, args: seq<Source>, left: Option<(real, Json)>, sc: Scope)
    requires CompileArguments(cfg, args).Ok? && CleanArguments(args)
    ensures EvalMinMax(cfg.lib, cfg.noErr, min, CompileArguments(cfg, args).value.x, left, sc)
         == BestMeaning(cfg, min, args, left, sc)
    decreases args, 1
  {
    if args != [] {
      CompiledArgumentMeans(cfg, args, 0, sc);
      var c := Meaning(cfg, args[0], sc);
      if c.Ok? {
        CompiledBestMeans(cfg, min, args[1..], MinMaxStep(min, left, c.value.v), sc);
      }
    }
  }
}
