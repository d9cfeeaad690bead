/** What parsing registers covers every name the compiled expression refers to. */
module SelectNames {
  import opened Wrappers
  import opened JsonValues
  import opened Expressions
  import opened Precedence
  import opened References
  import opened SourceSyntax
  import opened FunctionCalls
  import opened SelectParser

  function ItemNames(items: seq<Item>): set<string> {
    if items == [] then {}
    else (if items[0].Operand? then ExpressionNames(items[0].e) else {}) + ItemNames(items[1..])
  }

  lemma {:induction false} ItemNamesConcat(a: seq<Item>, b: seq<Item>)
    ensures ItemNames(a + b) == ItemNames(a) + ItemNames(b)
  {
    if a == [] {
      assert a + b == b;
    } else {
      ItemNamesConcat(a[1..], b);
      assert (a + b)[1..] == a[1..] + b;
    }
  }

  lemma {:induction false} BuildNames(t: Tree)
    ensures ExpressionNames(Build(t)) == ItemNames(Yield(t))
  {
    if t.Node? {
      BuildNames(t.l);
      BuildNames(t.r);
      ItemNamesConcat(Yield(t.l) + [Operator(t.o)], Yield(t.r));
      ItemNamesConcat(Yield(t.l), [Operator(t.o)]);
      AttachNames(Build(t.l), t.o, Build(t.r));
    } else {
      assert ItemNames([Operand(t.e)]) == ExpressionNames(t.e) + ItemNames([]);
    }
  }

  lemma AttachNames(e: Expression, o: InfixOperator, r: Expression)
    ensures ExpressionNames(Attach(e, o, r)) == ExpressionNames(e) + ExpressionNames(r)
  {
    assert LhsNames(Nested(e)) == ExpressionNames(e);
  }

  lemma {:induction false} SimplifiedNames(e: Expression)
    ensures SimplifyToJson(e).Unsimplified? ==> ExpressionNames(SimplifyToJson(e).e) <= ExpressionNames(e)
  {
    if e.op.None? && e.lhs.Nested? {
      SimplifiedNames(e.lhs.e);
      assert LhsNames(e.lhs) == ExpressionNames(e.lhs.e);
    }
  }

  lemma ArgumentNamesOf(e: Expression)
    ensures ArgumentNames(FromExpression(e)) <= ExpressionNames(e)
  {
    SimplifiedNames(e);
    match SimplifyToJson(e)
    case SimpleValue(j) => assert ValueNames(Literal(j)) == {};
    case Unsimplified(k) =>
  }

  lemma {:induction false} PieceNamesConcat(a: seq<Piece>, b: seq<Piece>)
    ensures PieceNames(a + b) == PieceNames(a) + PieceNames(b)
  {
    if a == [] {
      assert a + b == b;
    } else {
      PieceNamesConcat(a[1..], b);
      assert (a + b)[1..] == a[1..] + b;
    }
  }

  lemma PushPieceNames(done: seq<Piece>, source: SourcePiece, piece: Piece)
    ensures PieceNames(PushPiece(done, source, piece)) == PieceNames(done) + OnePieceNames(piece)
  {
    assert PieceNames([piece]) == OnePieceNames(piece) + PieceNames([]);
    PieceNamesConcat(done, [piece]);
    if source.HolePiece? && piece.Text? && done != [] && done[|done| - 1].Text? {
      var n := |done| - 1;
      var merged := Text(done[n].s + piece.s);
      assert done == done[..n] + [done[n]];
      PieceNamesConcat(done[..n], [done[n]]);
      PieceNamesConcat(done[..n], [merged]);
      assert PieceNames([merged]) == OnePieceNames(merged) + PieceNames([]);
      assert PieceNames([done[n]]) == OnePieceNames(done[n]) + PieceNames([]);
    }
  }

  // ---------- the registered names cover the ones referred to ----------

  lemma {:induction false} SourceNamesCovered(cfg: Config, s: Source)
    requires CompileSource(cfg, s).Ok?
    ensures ExpressionNames(CompileSource(cfg, s).value.x) <= CompileSource(cfg, s).value.names
    decreases s, 2
  {
    ItemsNamesCovered(cfg, s);
    BuildNames(TreeOf(CompileItems(cfg, s).value.x, 0));
  }

  lemma {:induction false} ItemsNamesCovered(cfg: Config, s: Source)
    requires CompileItems(cfg, s).Ok?
    ensures ItemNames(CompileItems(cfg, s).value.x) <= CompileItems(cfg, s).value.names
    decreases s, 1
  {
    OperandNamesCovered(cfg, s.nots, s.atom);
    var operand := Operand(CompileOperand(cfg, s.nots, s.atom).value.x);
    if s.rest.Some? {
      var o := Operator(s.rest.value.o);
      var others := CompileItems(cfg, s.rest.value.s).value.x;
      ItemsNamesCovered(cfg, s.rest.value.s);
      assert ([operand, o] + others)[1..] == [o] + others;
      assert ([o] + others)[1..] == others;
    } else {
      assert ItemNames([operand]) == ExpressionNames(operand.e) + ItemNames([]);
    }
  }

  lemma {:induction false} OperandNamesCovered(cfg: Config, nots: nat, atom: Atom)
    requires CompileOperand(cfg, nots, atom).Ok?
    ensures ExpressionNames(CompileOperand(cfg, nots, atom).value.x) <= CompileOperand(cfg, nots, atom).value.names
    decreases atom, 1
  {
    match atom
    case ValueAtom(v) =>
      ValueNamesCovered(cfg, v);
      var x := CompileValue(cfg, v).value.x;
      assert LhsNames(Plain(x)) == ValueNames(x);
    case Group(s) => SourceNamesCovered(cfg, s);
  }

  lemma {:induction false} ValueNamesCovered(cfg: Config, v: SourceValue)
    requires CompileValue(cfg, v).Ok?
    ensures ValueNames(CompileValue(cfg, v).value.x) <= CompileValue(cfg, v).value.names
    decreases v, 1
  {
    match v
    case StringLiteral(t) => TemplateNamesCovered(cfg, t, Compiled([], {}));
    case PathSource(start, rest) =>
      StartNamesCovered(cfg, start);
      SegmentsNamesCovered(cfg, rest);
      var p := Path(CompileStart(cfg, start).value.x, CompileSegments(cfg, rest).value.x);
      assert ValueNames(PathValue(p)) == PathNames(p);
    case _ =>
  }

  lemma {:induction false} TemplateNamesCovered(cfg: Config, t: seq<SourcePiece>, done: Compiled<seq<Piece>>)
    requires CompileTemplate(cfg, t, done).Ok? && PieceNames(done.x) <= done.names
    ensures PieceNames(CompileTemplate(cfg, t, done).value.x) <= CompileTemplate(cfg, t, done).value.names
    decreases t, 1
  {
    if t != [] {
      PieceNamesCovered(cfg, t[0]);
      var piece := CompilePiece(cfg, t[0]).value;
      PushPieceNames(done.x, t[0], piece.x);
      TemplateNamesCovered(cfg, t[1..], Compiled(PushPiece(done.x, t[0], piece.x), done.names + piece.names));
    }
  }

  lemma {:induction false} PieceNamesCovered(cfg: Config, piece: SourcePiece)
    requires CompilePiece(cfg, piece).Ok?
    ensures OnePieceNames(CompilePiece(cfg, piece).value.x) <= CompilePiece(cfg, piece).value.names
    decreases piece, 1
  {
    if piece.HolePiece? {
      SourceNamesCovered(cfg, piece.e);
      var x := CompileSource(cfg, piece.e).value.x;
      SimplifiedNames(x);
      if SimplifyToJson(x).Unsimplified? {
        ArgumentNamesOf(SimplifyToJson(x).e);
      }
    }
  }

  lemma {:induction false} StartNamesCovered(cfg: Config, start: SourceStart)
    requires CompileStart(cfg, start).Ok?
    ensures var c := CompileStart(cfg, start).value; c.x.Call? ==> CallNames(c.x.f) <= c.names
    decreases start, 1
  {
    if start.CallSource? {
      ArgumentsNamesCovered(cfg, start.args);
      var args := CompileArguments(cfg, start.args).value.x;
      FoldingPreservesEvaluation(cfg.lib, cfg.noErr, start.f, args, Scope(Null, None));
      CallNamesOf(cfg.lib, start.f, args);
    }
  }

  lemma CallNamesOf(lib: Library, f: FunctionName, args: seq<Argument>)
    requires NewCall(lib, f, args).Ok?
    ensures CallNames(Unfolded(lib, f, args)) <= ArgumentsNames(args)
  {
    if f.IfName? {
      assert ArgumentsNames(args[1..]) == ArgumentNames(args[1]) + ArgumentsNames(args[1..][1..]);
      assert ArgumentsNames(args[2..]) == ArgumentNames(args[2]) + ArgumentsNames(args[2..][1..]);
      assert args[1..][1..] == args[2..];
    }
  }

  lemma {:induction false} ArgumentsNamesCovered(cfg: Config, args: seq<Source>)
    requires CompileArguments(cfg, args).Ok?
    ensures ArgumentsNames(CompileArguments(cfg, args).value.x) <= CompileArguments(cfg, args).value.names
    decreases args, 1
  {
    if args != [] {
      SourceNamesCovered(cfg, args[0]);
      ArgumentNamesOf(CompileSource(cfg, args[0]).value.x);
      ArgumentsNamesCovered(cfg, args[1..]);
    }
  }

  lemma {:induction false} SegmentsNamesCovered(cfg: Config, rest: seq<SourceSegment>)
    requires CompileSegments(cfg, rest).Ok?
    ensures SegmentNames(CompileSegments(cfg, rest).value.x) <= CompileSegments(cfg, rest).value.names
    decreases rest, 1
  {
    if rest != [] {
      SegmentNamesCovered(cfg, rest[0]);
      SegmentsNamesCovered(cfg, rest[1..]);
    }
  }

  lemma {:induction false} SegmentNamesCovered(cfg: Config, s: SourceSegment)
    requires CompileSegment(cfg, s).Ok?
    ensures OneSegmentNames(CompileSegment(cfg, s).value.x) <= CompileSegment(cfg, s).value.names
    decreases s, 1
  {
    if s.KeySegment? {
      TemplateNamesCovered(cfg, s.t, Compiled([], {}));
    }
  }
}
