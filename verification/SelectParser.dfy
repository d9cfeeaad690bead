/**
 From written expressions to compiled ones, folding constants on the way.

 Parsing starts from the pairs the grammar produces. `names` is what ends up registered as a required
 provider.
 */
module SelectParser {
  import opened Wrappers
  import opened JsonValues
  import opened Expressions
  import opened Precedence
  import opened References
  import opened SourceSyntax
  import opened Marks
  import opened FunctionCalls

  datatype Compiled<+T> = Compiled(x: T, names: set<string>)

  datatype Simplified = SimpleValue(j: Json) | Unsimplified(e: Expression)

  // `simplify_to_json`; an expression with neither operator nor plain value loses its own `not` here.
  function SimplifyToJson(e: Expression): Simplified
    decreases e
  {
    if e.op.Some? then Unsimplified(e)
    else if e.lhs.Nested? then SimplifyToJson(e.lhs.e)
    else if e.lhs.v.Literal? then
      SimpleValue(if e.not.Some? then Bool(BoolValue(e.lhs.v.j) != e.not.value) else e.lhs.v.j)
    else Unsimplified(e)
  }

  // `ValueOrExpression::from_expression`
  function FromExpression(e: Expression): Argument {
    match SimplifyToJson(e)
    case SimpleValue(j) => ArgValue(Literal(j))
    case Unsimplified(k) => ArgExpression(k)
  }

  function CompileSource(cfg: Config, s: Source): (r: Result<Compiled<Expression>, Error>)
    decreases s, 2
  {
    var items :- CompileItems(cfg, s);
    Ok(Compiled(Build(TreeOf(items.x, 0)), items.names))
  }

  function CompileItems(cfg: Config, s: Source): (r: Result<Compiled<seq<Item>>, Error>)
    ensures r.Ok? ==> Alternating(r.value.x)
    decreases s, 1
  {
    var operand :- CompileOperand(cfg, s.nots, s.atom);
    match s.rest
    case None => Ok(Compiled([Operand(operand.x)], operand.names))
    case Some(r) =>
      var others :- CompileItems(cfg, r.s);
      Ok(Compiled([Operand(operand.x), Operator(r.o)] + others.x, operand.names + others.names))
  }

  function CompileOperand(cfg: Config, nots: nat, atom: Atom): Result<Compiled<Expression>, Error>
    decreases atom, 1
  {
    match atom
    case ValueAtom(v) =>
      var c :- CompileValue(cfg, v);
      Ok(Compiled(Expression(NotFlag(nots), Plain(c.x), None), c.names))
    case Group(s) =>
      var c :- CompileSource(cfg, s);
      Ok(Compiled(c.x.(not := MergeNot(c.x.not, NotFlag(nots))), c.names))
  }

  function CompileValue(cfg: Config, v: SourceValue): Result<Compiled<Value>, Error>
    decreases v, 1
  {
    match v
    case NullLiteral => Ok(Compiled(Literal(Null), {}))
    case BoolLiteral(b) => Ok(Compiled(Literal(Bool(b)), {}))
    case NumberLiteral(n) => Ok(Compiled(Literal(Number(n)), {}))
    case StringLiteral(t) =>
      var c :- CompileTemplate(cfg, t, Compiled([], {}));
      Ok(Compiled(if IsSimple(c.x) then Literal(String(c.x[0].s)) else Template(c.x), c.names))
    case PathSource(start, rest) =>
      var c :- CompileStart(cfg, start);
      var segments :- CompileSegments(cfg, rest);
      FoldPath(cfg, Path(c.x, segments.x), c.names + segments.names)
  }

  predicate IsSimple(pieces: seq<Piece>) {
    |pieces| == 1 && pieces[0].Text?
  }

  // A path that starts at a known value and needs no provider is walked right away.
  function FoldPath(cfg: Config, p: Path, names: set<string>): Result<Compiled<Value>, Error> {
    if p.start.Constant? && names == {} then
      var c :- EvalPath(cfg.lib, cfg.noErr, p, Scope(Null, None));
      Ok(Compiled(Literal(c.v), {}))
    else
      Ok(Compiled(PathValue(p), names + if p.start.Ident? then {PathName(p.start.name, p.rest)} else {}))
  }

  // Constant holes are written into the text before them.
  function CompileTemplate(cfg: Config, t: seq<SourcePiece>, done: Compiled<seq<Piece>>)
    : Result<Compiled<seq<Piece>>, Error>
    decreases t, 1
  {
    if t == [] then Ok(done)
    else
      var piece :- CompilePiece(cfg, t[0]);
      CompileTemplate(cfg, t[1..], Compiled(PushPiece(done.x, t[0], piece.x), done.names + piece.names))
  }

  function CompilePiece(cfg: Config, piece: SourcePiece): Result<Compiled<Piece>, Error>
    decreases piece, 1
  {
    match piece
    case TextPiece(s) => Ok(Compiled(Text(s), {}))
    case HolePiece(e) =>
      var c :- CompileSource(cfg, e);
      Ok(Compiled(match SimplifyToJson(c.x)
                  case SimpleValue(j) => Text(JsonToString(cfg.lib, j))
                  case Unsimplified(k) => Hole(FromExpression(k)), c.names))
  }

  function PushPiece(done: seq<Piece>, source: SourcePiece, piece: Piece): seq<Piece> {
    if source.HolePiece? && piece.Text? && done != [] && done[|done| - 1].Text? then
      done[..|done| - 1] + [Text(done[|done| - 1].s + piece.s)]
    else done + [piece]
  }

  function CompileStart(cfg: Config, start: SourceStart): Result<Compiled<PathStart>, Error>
    decreases start, 1
  {
    match start
    case Name(name) =>
      Ok(Compiled(if name in cfg.vars then PathStart.Constant(cfg.vars[name]) else Ident(name), {}))
    case CallSource(f, args) =>
      var c :- CompileArguments(cfg, args);
      var folding :- NewCall(cfg.lib, f, c.x);
      Ok(Compiled(match folding
                  case Folded(j) => PathStart.Constant(j)
                  case Kept(k) => Call(k), c.names))
  }

  function CompileArguments(cfg: Config, args: seq<Source>): (r: Result<Compiled<seq<Argument>>, Error>)
    ensures r.Ok? ==> |r.value.x| == |args|
    decreases args, 1
  {
    if args == [] then Ok(Compiled([], {}))
    else
      var c :- CompileSource(cfg, args[0]);
      var others :- CompileArguments(cfg, args[1..]);
      Ok(Compiled([FromExpression(c.x)] + others.x, c.names + others.names))
  }

  function CompileSegments(cfg: Config, rest: seq<SourceSegment>): (r: Result<Compiled<seq<Segment>>, Error>)
    ensures r.Ok? ==> |r.value.x| == |rest|
    decreases rest, 1
  {
    if rest == [] then Ok(Compiled([], {}))
    else
      var c :- CompileSegment(cfg, rest[0]);
      var others :- CompileSegments(cfg, rest[1..]);
      Ok(Compiled([c.x] + others.x, c.names + others.names))
  }

  function CompileSegment(cfg: Config, s: SourceSegment): Result<Compiled<Segment>, Error>
    decreases s, 1
  {
    match s
    case IndexSegment(n) => Ok(Compiled(Index(n), {}))
    case KeySegment(t) =>
      var c :- CompileTemplate(cfg, t, Compiled([], {}));
      Ok(Compiled(if IsSimple(c.x) then Key(c.x[0].s) else KeyTemplate(c.x), c.names))
  }

  // ---------- the pairs the grammar produces, and the loop over them ----------

  datatype Pair =
    | UnaryPair
    | ValuePair(v: SourceValue)
    | ExpressionPair(inner: seq<Pair>)
    | InfixPair(o: InfixOperator)
    | EndPair

  // What the grammar produces of expression = unary* (value | "(" expression ")") (infix expression)*: unary is
  // silent, so there is no pair for it.
  function Pairs(s: Source): seq<Pair>
    decreases s
  {
    var atom := match s.atom
                case ValueAtom(v) => ValuePair(BareValue(v))
                case Group(g) => ExpressionPair(Pairs(g));
    if s.rest.None? then [atom] else [atom, InfixPair(s.rest.value.o), ExpressionPair(Pairs(s.rest.value.s))]
  }

  // What a parenthesised operand contributes, in terms of its own items.
  lemma GroupOperand(cfg: Config, s: Source)
    requires s.atom.Group?
    ensures var items := CompileItems(cfg, s.atom.s);
            match items
            case Err(e) => CompileOperand(cfg, s.nots, s.atom) == Err(e) && CompileItems(cfg, s) == Err(e)
            case Ok(c) =>
              && Alternating(c.x) && AtLeast(c.x, 0)
              && var e := Build(TreeOf(c.x, 0));
                 CompileOperand(cfg, s.nots, s.atom)
                 == Ok(Compiled(e.(not := MergeNot(e.not, NotFlag(s.nots))), c.names))
  {
    var g := CompileSource(cfg, s.atom.s);
    assert CompileItems(cfg, s.atom.s).Err? ==> CompileOperand(cfg, s.nots, s.atom) == Err(g.error);
  }

  // The list after the first `i` pairs of an unmarked expression.
  ghost predicate Parsed(cfg: Config, s: Source, pieces: seq<Item>, added: seq<Item>, i: nat) {
    if i == 0 then added == pieces
    else
      var operand := CompileOperand(cfg, 0, s.atom);
      operand.Ok? && (
        if i == 1 then added == pieces + [Operand(operand.value.x)]
        else if i == 2 then
          s.rest.Some? && added == pieces + [Operand(operand.value.x), Operator(s.rest.value.o)]
        else CompileItems(cfg, s).Ok? && added == pieces + CompileItems(cfg, s).value.x)
  }

  // `parse_expression_pieces`: a parenthesised expression is built on its own when it comes first;
  // one that follows an operator adds its pieces to the same list.
  method ParseExpressionPieces(cfg: Config, pairs: seq<Pair>, ghost s: Source, pieces: seq<Item>)
    returns (r: Result<seq<Item>, Error>)
    requires pairs == Pairs(s)
    ensures match CompileItems(cfg, Bare(s))
            case Ok(c) => r == Ok(pieces + c.x)
            case Err(e) => r == Err(e)
    decreases s, 1
  {
    var added: seq<Item> := pieces;
    var notCount := 0;
    var i := 0;
    while i < |pairs|
      invariant 0 <= i <= |pairs| && notCount == 0
      invariant Parsed(cfg, Bare(s), pieces, added, i)
    {
      match pairs[i] {
        case UnaryPair =>
          notCount := notCount + 1;
        case ValuePair(v) =>
          var value := CompileValue(cfg, v);
          if value.Err? {
            return Err(value.error);
          }
          added := added + [Operand(Expression(NotFlag(notCount), Plain(value.value.x), None))];
          notCount := 0;
        case ExpressionPair(inner) =>
          if |added| == |pieces| {
            var e := ParseGroup(cfg, inner, s, notCount);
            if e.Err? {
              return Err(e.error);
            }
            added := added + [Operand(e.value)];
          } else {
            var more := ParseExpressionPieces(cfg, inner, s.rest.value.s, added);
            if more.Err? {
              return Err(more.error);
            }
            added := more.value;
          }
        case InfixPair(o) =>
          added := added + [Operator(o)];
        case EndPair =>
      }
      i := i + 1;
    }
    r := Ok(added);
  }

  method ParseGroup(cfg: Config, inner: seq<Pair>, ghost s: Source, notCount: nat)
    returns (r: Result<Expression, Error>)
    requires s.atom.Group? && inner == Pairs(s.atom.s)
    ensures match CompileOperand(cfg, notCount, Bare(s).atom)
            case Ok(c) => r == Ok(c.x)
            case Err(e) => r == Err(e) && CompileItems(cfg, Bare(s)) == Err(e)
    decreases s, 0
  {
    assert BareAtom(s.atom) == Group(Bare(s.atom.s));
    assert Bare(s).atom == Group(Bare(s.atom.s));
    GroupOperand(cfg, Bare(s));
    GroupOperand(cfg, Source(notCount, Bare(s).atom, None));
    var grouped := ParseExpressionPieces(cfg, inner, s.atom.s, []);
    if grouped.Err? {
      return Err(grouped.error);
    }
    ghost var items := CompileItems(cfg, Bare(s.atom.s)).value.x;
    assert grouped.value == [] + items == items;
    assert Alternating(items) && AtLeast(items, 0);
    var e := ExpressionHelper(grouped.value, 0);
    r := Ok(e.(not := MergeNot(e.not, NotFlag(notCount))));
  }

  // `parse_expression`: an entry point wraps the whole expression once more, which changes nothing.
  method ParseExpression(cfg: Config, ghost s: Source, pairs: seq<Pair>) returns (r: Result<Expression, Error>)
    requires pairs == [ExpressionPair(Pairs(s)), EndPair] || pairs == [ExpressionPair(Pairs(s))]
    ensures match CompileSource(cfg, Bare(s))
            case Ok(c) => r == Ok(c.x)
            case Err(e) => r == Err(e)
  {
    var pieces := ParseExpressionPieces(cfg, pairs[0].inner, s, []);
    if pieces.Err? {
      return Err(pieces.error);
    }
    assert pieces.value == [] + CompileItems(cfg, Bare(s)).value.x == CompileItems(cfg, Bare(s)).value.x;
    var grouped := ExpressionHelper(pieces.value, 0);
    var e := ExpressionHelper([Operand(grouped.(not := MergeNot(grouped.not, NotFlag(0))))], 0);
    LoneOperandIsItself(grouped);
    r := Ok(e);
  }

  lemma LoneOperandIsItself(e: Expression)
    ensures Alternating([Operand(e)]) && AtLeast([Operand(e)], 0)
    ensures Build(TreeOf([Operand(e)], 0)) == e
    ensures e.(not := MergeNot(e.not, NotFlag(0))) == e
  {
    SingleOperand([Operand(e)], 0);
    if e.not.Some? {
      assert e.not == Some(e.not.value);
      assert e.not.value == true || e.not.value == false;
    }
  }
}
