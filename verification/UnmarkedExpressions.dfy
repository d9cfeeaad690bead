/**
 Expressions without exclamation marks, which are all the parser is ever given: for them nothing has to be
 assumed. What that makes of written marks.
 */
module UnmarkedExpressions {
  import opened Wrappers
  import opened JsonValues
  import opened Expressions
  import opened Precedence
  import opened SourceSyntax
  import opened Marks
  import opened FunctionCalls
  import opened SelectParser
  import opened SelectCorrectness

  lemma {:induction false} UnmarkedFlag(nots: nat, atom: Atom)
    requires UnmarkedOperand(nots, atom)
    ensures OperandFlag(nots, atom).None?
    decreases atom
  {
    if atom.Group? && atom.s.rest.None? {
      UnmarkedFlag(atom.s.nots, atom.s.atom);
    }
  }

  lemma {:induction false} UnmarkedAbsorbsNothing(s: Source, before: nat)
    requires Unmarked(s)
    ensures !MarksAbsorb(s, before)
  {
    UnmarkedFlag(s.nots, s.atom);
    if s.rest.Some? {
      UnmarkedAbsorbsNothing(s.rest.value.s, Level(s.rest.value.o));
    }
  }

  lemma {:induction false} UnmarkedIsClean(s: Source)
    requires Unmarked(s)
    ensures Clean(s)
    decreases s, 2
  {
    UnmarkedAbsorbsNothing(s, 0);
    UnmarkedOperandsAreClean(s);
  }

  lemma {:induction false} UnmarkedOperandsAreClean(s: Source)
    requires Unmarked(s)
    ensures CleanOperands(s)
    decreases s, 1
  {
    UnmarkedOperandIsClean(s.nots, s.atom);
    if s.rest.Some? {
      UnmarkedOperandsAreClean(s.rest.value.s);
    }
  }

  lemma {:induction false} UnmarkedOperandIsClean(nots: nat, atom: Atom)
    requires UnmarkedOperand(nots, atom)
    ensures CleanOperand(nots, atom)
    decreases atom, 1
  {
    match atom
    case ValueAtom(v) => UnmarkedValueIsClean(v);
    case Group(s) => UnmarkedIsClean(s);
  }

  lemma {:induction false} UnmarkedValueIsClean(v: SourceValue)
    requires UnmarkedValue(v)
    ensures CleanValue(v)
    decreases v, 1
  {
    match v
    case StringLiteral(t) => UnmarkedTemplateIsClean(t);
    case PathSource(start, rest) =>
      if start.CallSource? {
        UnmarkedArgumentsAreClean(start.args);
      }
      UnmarkedSegmentsAreClean(rest);
    case _ =>
  }

  lemma {:induction false} UnmarkedTemplateIsClean(t: seq<SourcePiece>)
    requires UnmarkedTemplate(t)
    ensures CleanTemplate(t)
    decreases t, 1
  {
    if t != [] {
      UnmarkedPieceIsClean(t[0]);
      UnmarkedTemplateIsClean(t[1..]);
    }
  }

  lemma {:induction false} UnmarkedPieceIsClean(piece: SourcePiece)
    requires UnmarkedPiece(piece)
    ensures CleanPiece(piece)
    decreases piece, 1
  {
    if piece.HolePiece? {
      UnmarkedIsClean(piece.e);
    }
  }

  lemma {:induction false} UnmarkedArgumentsAreClean(args: seq<Source>)
    requires UnmarkedArguments(args)
    ensures CleanArguments(args)
    decreases args, 1
  {
    if args != [] {
      UnmarkedIsClean(args[0]);
      UnmarkedArgumentsAreClean(args[1..]);
    }
  }

  lemma {:induction false} UnmarkedSegmentsAreClean(rest: seq<SourceSegment>)
    requires UnmarkedSegments(rest)
    ensures CleanSegments(rest)
    decreases rest, 1
  {
    if rest != [] {
      UnmarkedSegmentIsClean(rest[0]);
      UnmarkedSegmentsAreClean(rest[1..]);
    }
  }

  lemma {:induction false} UnmarkedSegmentIsClean(s: SourceSegment)
    requires UnmarkedSegment(s)
    ensures CleanSegment(s)
    decreases s, 1
  {
    if s.KeySegment? {
      UnmarkedTemplateIsClean(s.t);
    }
  }

  // An expression without marks means what was written.
  lemma UnmarkedSourceMeans(cfg: Config, s: Source, sc: Scope)
    requires Unmarked(s) && CompileSource(cfg, s).Ok?
    ensures SameOutcome(EvalExpression(cfg.lib, cfg.noErr, CompileSource(cfg, s).value.x, sc), Meaning(cfg, s, sc))
  {
    UnmarkedIsClean(s);
    CompiledSourceMeans(cfg, s, sc);
  }

  // ---------- what becomes of written marks ----------

  // What the program makes of a written expression: the grammar hands it over without its marks.
  function Program(cfg: Config, s: Source, sc: Scope): Outcome {
    var c :- CompileSource(cfg, Bare(s));
    EvalExpression(cfg.lib, cfg.noErr, c.x, sc)
  }

  // Main result: whatever is written, if it compiles, means what it would mean without its marks.
  lemma WrittenSourceMeans(cfg: Config, s: Source, sc: Scope)
    requires CompileSource(cfg, Bare(s)).Ok?
    ensures SameOutcome(Program(cfg, s, sc), Meaning(cfg, Bare(s), sc))
    ensures Unmarked(s) ==> SameOutcome(Program(cfg, s, sc), Meaning(cfg, s, sc))
  {
    BareIsUnmarked(s);
    UnmarkedSourceMeans(cfg, Bare(s), sc);
  }

  lemma MarksChangeNothingExactly(n: nat, r: Outcome)
    ensures SameOutcome(Negate(n, r), r) <==> n == 0 || r.Err? || (n % 2 == 0 && r.value.v.Bool?)
  {
    NegateIsFlag(n, r);
  }

  // Main result: marks in front of a value or a parenthesised expression are read as written exactly if there
  // are none, the rest evaluates to an error, or an even number stands in front of a truth value.
  lemma MarksAreReadExactly(cfg: Config, n: nat, atom: Atom, sc: Scope)
    requires UnmarkedOperand(0, atom) && CompileSource(cfg, Source(0, atom, None)).Ok?
    ensures var s := Source(n, atom, None);
            var r := Meaning(cfg, Bare(s), sc);
            && CompileSource(cfg, Bare(s)).Ok?
            && (SameOutcome(Program(cfg, s, sc), Meaning(cfg, s, sc))
                <==> n == 0 || r.Err? || (n % 2 == 0 && r.value.v.Bool?))
  {
    var s := Source(n, atom, None);
    BareAtomIsUnmarked(atom);
    assert Bare(s) == Source(0, atom, None);
    WrittenSourceMeans(cfg, s, sc);
    var plain := OperandMeaning(cfg, 0, atom, sc);
    assert OperandMeaning(cfg, n, atom, sc) == Negate(n, plain);
    assert RestMeaning(cfg, s, sc) == [] && RestMeaning(cfg, Bare(s), sc) == [];
    assert Meaning(cfg, s, sc) == Negate(n, plain) && Meaning(cfg, Bare(s), sc) == plain;
    MarksChangeNothingExactly(n, plain);
  }

  // A written `!true` is true.
  lemma WrittenNotIsIgnored(cfg: Config, sc: Scope)
    ensures var s := Source(1, ValueAtom(BoolLiteral(true)), None);
            && CompileSource(cfg, Bare(s)).Ok?
            && Program(cfg, s, sc) == Ok(Borrowed(Bool(true)))
            && Meaning(cfg, s, sc) == Ok(Owned(Bool(false)))
  {
    var s := Source(1, ValueAtom(BoolLiteral(true)), None);
    var e := Expression(None, Plain(Literal(Bool(true))), None);
    assert CompileOperand(cfg, 0, ValueAtom(BoolLiteral(true))) == Ok(Compiled(e, {}));
    assert CompileItems(cfg, Bare(s)) == Ok(Compiled([Operand(e)], {}));
    LoneOperandIsItself(e);
    LiteralTrue(cfg.lib, cfg.noErr, e, sc);
    assert RestMeaning(cfg, s, sc) == [];
    assert Negate(0, Ok(Borrowed(Bool(true)))) == Ok(Borrowed(Bool(true)));
    assert OperandMeaning(cfg, 1, s.atom, sc) == Negate(1, Ok(Borrowed(Bool(true)))) == Ok(Owned(Bool(false)));
  }
}
