/** Which provider names a compiled expression refers to, and that nothing else can change its value. */
module References {
  import opened Wrappers
  import opened JsonValues
  import opened Expressions

  // The name a path is registered under: `request` and `response` include the property that follows.
  function PathName(name: string, rest: seq<Segment>): string {
    if (name == "request" || name == "response") && rest != [] && rest[0].Key? then name + "." + rest[0].s
    else name
  }

  function ExpressionNames(e: Expression): set<string>
    decreases e, 1
  {
    LhsNames(e.lhs) + (if e.op.Some? then ExpressionNames(e.op.value.rhs) else {})
  }

  function LhsNames(l: Lhs): set<string>
    decreases l, 1
  {
    match l
    case Nested(e) => ExpressionNames(e)
    case Plain(v) => ValueNames(v)
  }

  function ValueNames(v: Value): set<string>
    decreases v, 1
  {
    match v
    case PathValue(p) => PathNames(p)
    case Literal(_) => {}
    case Template(pieces) => PieceNames(pieces)
  }

  function ArgumentNames(a: Argument): set<string>
    decreases a, 2
  {
    match a
    case ArgValue(v) => ValueNames(v)
    case ArgExpression(e) => ExpressionNames(e)
  }

  function PieceNames(pieces: seq<Piece>): set<string>
    decreases pieces, 1
  {
    if pieces == [] then {}
    else OnePieceNames(pieces[0]) + PieceNames(pieces[1..])
  }

  function OnePieceNames(piece: Piece): set<string>
    decreases piece, 1
  {
    if piece.Hole? then ArgumentNames(piece.arg) else {}
  }

  function PathNames(p: Path): set<string>
    decreases p, 1
  {
    var fromStart := match p.start
                     case Call(f) => CallNames(f)
                     case Ident(name) => {PathName(name, p.rest)}
                     case Constant(_) => {};
    fromStart + SegmentNames(p.rest)
  }

  function SegmentNames(rest: seq<Segment>): set<string>
    decreases rest, 1
  {
    if rest == [] then {}
    else OneSegmentNames(rest[0]) + SegmentNames(rest[1..])
  }

  function OneSegmentNames(s: Segment): set<string>
    decreases s, 1
  {
    if s.KeyTemplate? then PieceNames(s.pieces) else {}
  }

  function CallNames(f: FunctionCall): set<string>
    decreases f, 1
  {
    match f
    case If(first, second, third) => ArgumentNames(first) + ArgumentNames(second) + ArgumentNames(third)
    case MinMax(_, args) => ArgumentsNames(args)
    case Join(arg, _, _) => ArgumentNames(arg)
    case Pad(_, arg, _, _) => ArgumentNames(arg)
  }

  function ArgumentsNames(args: seq<Argument>): set<string>
    decreases args, 1
  {
    if args == [] then {} else ArgumentNames(args[0]) + ArgumentsNames(args[1..])
  }

  // Scopes an expression with these names cannot tell apart.
  predicate Agree(names: set<string>, a: Scope, b: Scope) {
    && (names != {} ==> a.d == b.d)
    && ("for_each" in names ==> a.forEach == b.forEach)
  }

  // ---------- an expression depends on nothing but the names it refers to ----------

  lemma {:induction false} ExpressionDependsOnNames(lib: Library, noErr: bool, e: Expression, a: Scope, b: Scope)
    requires Agree(ExpressionNames(e), a, b)
    ensures EvalExpression(lib, noErr, e, a) == EvalExpression(lib, noErr, e, b)
    decreases e, 1
  {
    LhsDependsOnNames(lib, noErr, e.lhs, a, b);
    if e.op.Some? {
      ExpressionDependsOnNames(lib, noErr, e.op.value.rhs, a, b);
    }
  }

  lemma {:induction false} LhsDependsOnNames(lib: Library, noErr: bool, l: Lhs, a: Scope, b: Scope)
    requires Agree(LhsNames(l), a, b)
    ensures EvalLhs(lib, noErr, l, a) == EvalLhs(lib, noErr, l, b)
    decreases l, 1
  {
    match l
    case Nested(e) => ExpressionDependsOnNames(lib, noErr, e, a, b);
    case Plain(v) => ValueDependsOnNames(lib, noErr, v, a, b);
  }

  lemma {:induction false} ValueDependsOnNames(lib: Library, noErr: bool, v: Value, a: Scope, b: Scope)
    requires Agree(ValueNames(v), a, b)
    ensures EvalValue(lib, noErr, v, a) == EvalValue(lib, noErr, v, b)
    decreases v, 1
  {
    match v
    case PathValue(p) => PathDependsOnNames(lib, noErr, p, a, b);
    case Literal(_) =>
    case Template(pieces) => PiecesDependOnNames(lib, noErr, pieces, a, b);
  }

  lemma {:induction false} ArgumentDependsOnNames(lib: Library, noErr: bool, arg: Argument, a: Scope, b: Scope)
    requires Agree(ArgumentNames(arg), a, b)
    ensures EvalArgument(lib, noErr, arg, a) == EvalArgument(lib, noErr, arg, b)
    decreases arg, 2
  {
    match arg
    case ArgValue(v) => ValueDependsOnNames(lib, noErr, v, a, b);
    case ArgExpression(e) => ExpressionDependsOnNames(lib, noErr, e, a, b);
  }

  lemma {:induction false} PiecesDependOnNames(lib: Library, noErr: bool, pieces: seq<Piece>, a: Scope, b: Scope)
    requires Agree(PieceNames(pieces), a, b)
    ensures EvalPieces(lib, noErr, pieces, a) == EvalPieces(lib, noErr, pieces, b)
    decreases pieces, 1
  {
    if pieces != [] {
      PieceDependsOnNames(lib, noErr, pieces[0], a, b);
      PiecesDependOnNames(lib, noErr, pieces[1..], a, b);
    }
  }

  lemma {:induction false} PieceDependsOnNames(lib: Library, noErr: bool, piece: Piece, a: Scope, b: Scope)
    requires Agree(OnePieceNames(piece), a, b)
    ensures EvalPiece(lib, noErr, piece, a) == EvalPiece(lib, noErr, piece, b)
    decreases piece, 1
  {
    if piece.Hole? {
      ArgumentDependsOnNames(lib, noErr, piece.arg, a, b);
    }
  }

  lemma {:induction false} PathDependsOnNames(lib: Library, noErr: bool, p: Path, a: Scope, b: Scope)
    requires Agree(PathNames(p), a, b)
    ensures EvalPath(lib, noErr, p, a) == EvalPath(lib, noErr, p, b)
    decreases p, 1
  {
    match p.start
    case Call(f) =>
      CallDependsOnNames(lib, noErr, f, a, b);
      var c := EvalCall(lib, noErr, f, a);
      if c.Ok? {
        SegmentsDependOnNames(lib, noErr, p.rest, c.value, a.forEach, b.forEach);
      }
    case Constant(j) =>
      SegmentsDependOnNames(lib, noErr, p.rest, Borrowed(j), a.forEach, b.forEach);
    case Ident(name) =>
      if name != "for_each" || a.forEach.None? {
        assert PathName(name, p.rest) in PathNames(p);
        assert a.d == b.d;
        var c := IndexJson(lib, Borrowed(a.d), TextKey(name), noErr);
        if c.Ok? {
          SegmentsDependOnNames(lib, noErr, p.rest, c.value, a.forEach, b.forEach);
        }
      }
  }

  lemma {:induction false} SegmentsDependOnNames(
    lib: Library, noErr: bool, rest: seq<Segment>, c: Cow, a: Option<seq<Cow>>, b: Option<seq<Cow>>)
    requires "for_each" in SegmentNames(rest) ==> a == b
    ensures EvalSegments(lib, noErr, rest, c, a) == EvalSegments(lib, noErr, rest, c, b)
    decreases rest, 1
  {
    if rest != [] {
      SegmentDependsOnNames(lib, noErr, rest[0], c, a, b);
      var key := EvalSegment(lib, noErr, rest[0], c, a);
      if key.Ok? {
        var next := IndexJson(lib, c, key.value, noErr);
        if next.Ok? {
          SegmentsDependOnNames(lib, noErr, rest[1..], next.value, a, b);
        }
      }
    }
  }

  lemma {:induction false} SegmentDependsOnNames(
    lib: Library, noErr: bool, s: Segment, c: Cow, a: Option<seq<Cow>>, b: Option<seq<Cow>>)
    requires "for_each" in OneSegmentNames(s) ==> a == b
    ensures EvalSegment(lib, noErr, s, c, a) == EvalSegment(lib, noErr, s, c, b)
    decreases s, 1
  {
    if s.KeyTemplate? {
      PiecesDependOnNames(lib, noErr, s.pieces, Scope(c.v, a), Scope(c.v, b));
    }
  }

  lemma {:induction false} CallDependsOnNames(lib: Library, noErr: bool, f: FunctionCall, a: Scope, b: Scope)
    requires Agree(CallNames(f), a, b)
    ensures EvalCall(lib, noErr, f, a) == EvalCall(lib, noErr, f, b)
    decreases f, 1
  {
    match f
    case If(first, second, third) =>
      ArgumentDependsOnNames(lib, noErr, first, a, b);
      ArgumentDependsOnNames(lib, noErr, second, a, b);
      ArgumentDependsOnNames(lib, noErr, third, a, b);
    case MinMax(min, args) => MinMaxDependsOnNames(lib, noErr, min, args, None, a, b);
    case Join(arg, _, _) => ArgumentDependsOnNames(lib, noErr, arg, a, b);
    case Pad(_, arg, _, _) => ArgumentDependsOnNames(lib, noErr, arg, a, b);
  }

  lemma {:induction false} MinMaxDependsOnNames(
    lib: Library, noErr: bool, min: bool, args: seq<Argument>, left: Option<(real, Json)>, a: Scope, b: Scope)
    requires Agree(ArgumentsNames(args), a, b)
    ensures EvalMinMax(lib, noErr, min, args, left, a) == EvalMinMax(lib, noErr, min, args, left, b)
    decreases args, 1
  {
    if args != [] {
      ArgumentDependsOnNames(lib, noErr, args[0], a, b);
      var c := EvalArgument(lib, noErr, args[0], a);
      if c.Ok? {
        MinMaxDependsOnNames(lib, noErr, min, args[1..], MinMaxStep(min, left, c.value.v), a, b);
      }
    }
  }

  // A property of a request or response is a name of its own.
  lemma NamesOfRequests(name: string, property: string, rest: seq<Segment>)
    ensures PathName(name, [Key(property)] + rest)
         == if name in {"request", "response"} then name + "." + property else name
    ensures PathName(name, []) == name
    ensures forall n: nat :: PathName(name, [Index(n)] + rest) == name
  {
  }
}
