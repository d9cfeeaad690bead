/** Building a selection from its written parts, and what the built selection then sends. */
module SelectNew {
  import opened Wrappers
  import opened JsonValues
  import opened Expressions
  import opened Precedence
  import opened References
  import opened SourceSyntax
  import opened SelectParser
  import opened SelectNames
  import opened Select

  // The `select` parameter: JSON whose strings are expressions.
  datatype ShapeSource =
    | NullSource
    | BoolSource(b: bool)
    | NumberSource(n: JsonNumber)
    | ExpressionSource(s: Source)
    | ArraySource(shapes: seq<ShapeSource>)
    | ObjectSource(fields: seq<FieldSource>)

  datatype FieldSource = FieldSource(key: string, shape: ShapeSource)

  datatype SelectError = Creating(e: Error) | RecursiveForEachReference | MissingForEach

  function ParseShape(cfg: Config, s: ShapeSource): Result<Compiled<Shape>, Error>
    decreases s, 1
  {
    match s
    case NullSource => Ok(Compiled(NullShape, {}))
    case BoolSource(b) => Ok(Compiled(BoolShape(b), {}))
    case NumberSource(n) => Ok(Compiled(NumberShape(n), {}))
    case ExpressionSource(e) =>
      var c :- CompileSource(cfg, e);
      Ok(Compiled(ExpressionShape(FromExpression(c.x)), c.names))
    case ArraySource(shapes) =>
      var c :- ParseShapes(cfg, shapes);
      Ok(Compiled(ArrayShape(c.x), c.names))
    case ObjectSource(fields) =>
      var c :- ParseFields(cfg, fields);
      Ok(Compiled(ObjectShape(c.x), c.names))
  }

  function ParseShapes(cfg: Config, shapes: seq<ShapeSource>): Result<Compiled<seq<Shape>>, Error>
    decreases shapes, 1
  {
    if shapes == [] then Ok(Compiled([], {}))
    else
      var c :- ParseShape(cfg, shapes[0]);
      var others :- ParseShapes(cfg, shapes[1..]);
      Ok(Compiled([c.x] + others.x, c.names + others.names))
  }

  function ParseFields(cfg: Config, fields: seq<FieldSource>): Result<Compiled<seq<Field>>, Error>
    decreases fields, 1
  {
    if fields == [] then Ok(Compiled([], {}))
    else
      var c :- ParseField(cfg, fields[0]);
      var others :- ParseFields(cfg, fields[1..]);
      Ok(Compiled([c.x] + others.x, c.names + others.names))
  }

  function ParseField(cfg: Config, f: FieldSource): Result<Compiled<Field>, Error>
    decreases f, 1
  {
    var c :- ParseShape(cfg, f.shape);
    Ok(Compiled(Field(f.key, c.x), c.names))
  }

  lemma {:induction false} ShapeNamesCovered(cfg: Config, s: ShapeSource)
    requires ParseShape(cfg, s).Ok?
    ensures ShapeNames(ParseShape(cfg, s).value.x) <= ParseShape(cfg, s).value.names
    decreases s, 1
  {
    match s
    case ExpressionSource(e) =>
      SourceNamesCovered(cfg, e);
      ArgumentNamesOf(CompileSource(cfg, e).value.x);
    case ArraySource(shapes) => ShapesNamesCovered(cfg, shapes);
    case ObjectSource(fields) => FieldsNamesCovered(cfg, fields);
    case _ =>
  }

  lemma {:induction false} ShapesNamesCovered(cfg: Config, shapes: seq<ShapeSource>)
    requires ParseShapes(cfg, shapes).Ok?
    ensures ShapesNames(ParseShapes(cfg, shapes).value.x) <= ParseShapes(cfg, shapes).value.names
    decreases shapes, 1
  {
    if shapes != [] {
      ShapeNamesCovered(cfg, shapes[0]);
      ShapesNamesCovered(cfg, shapes[1..]);
    }
  }

  lemma {:induction false} FieldsNamesCovered(cfg: Config, fields: seq<FieldSource>)
    requires ParseFields(cfg, fields).Ok?
    ensures FieldNames(ParseFields(cfg, fields).value.x) <= ParseFields(cfg, fields).value.names
    decreases fields, 1
  {
    if fields != [] {
      FieldNamesCovered(cfg, fields[0]);
      FieldsNamesCovered(cfg, fields[1..]);
    }
  }

  lemma {:induction false} FieldNamesCovered(cfg: Config, f: FieldSource)
    requires ParseField(cfg, f).Ok?
    ensures OneFieldNames(ParseField(cfg, f).value.x) <= ParseField(cfg, f).value.names
    decreases f, 1
  {
    ShapeNamesCovered(cfg, f.shape);
  }

  // `for_each` entries must not refer to the tuple they help to form.
  function ParseJoin(cfg: Config, join: seq<Source>): (r: Result<seq<Argument>, SelectError>)
    ensures r.Ok? ==> |r.value| == |join|
  {
    if join == [] then Ok([])
    else
      match CompileSource(cfg, join[0])
      case Err(e) => Err(Creating(e))
      case Ok(c) =>
        if "for_each" in c.names then Err(RecursiveForEachReference)
        else
          var others :- ParseJoin(cfg, join[1..]);
          Ok([FromExpression(c.x)] + others)
  }

  function NewSelection(cfg: Config, join: seq<Source>, w: Option<Source>, shape: ShapeSource)
    : Result<Selection, SelectError>
  {
    var items :- ParseJoin(cfg, join);
    var clause := if w.Some? then CompileSource(cfg, w.value)
                  else Ok(Compiled(Expression(None, Plain(Literal(Null)), None), {}));
    match clause
    case Err(e) => Err(Creating(e))
    case Ok(c) =>
      if "for_each" in c.names && items == [] then Err(MissingForEach)
      else
        match ParseShape(cfg, shape)
        case Err(e) => Err(Creating(e))
        case Ok(s) =>
          if "for_each" in s.names && items == [] then Err(MissingForEach)
          else
            Ok(Selection(items, "for_each" in s.names, "for_each" in c.names, s.x,
                         if w.Some? then Some(c.x) else None))
  }

  // The flags of a built selection cover what its clauses refer to, and no flag is set without a tuple.
  lemma BuiltFlagsCover(cfg: Config, join: seq<Source>, w: Option<Source>, shape: ShapeSource)
    requires NewSelection(cfg, join, w, shape).Ok?
    ensures var sel := NewSelection(cfg, join, w, shape).value;
            && FlagsCover(sel)
            && (join == [] ==> !sel.referencesForEach && !sel.whereReferencesForEach)
  {
    if w.Some? {
      SourceNamesCovered(cfg, w.value);
    }
    ShapeNamesCovered(cfg, shape);
  }

  ghost predicate Compiles(cfg: Config, join: seq<Source>, w: Option<Source>, shape: ShapeSource) {
    && (forall k :: 0 <= k < |join| ==> CompileSource(cfg, join[k]).Ok?)
    && (w.Some? ==> CompileSource(cfg, w.value).Ok?)
    && ParseShape(cfg, shape).Ok?
  }

  lemma {:induction false} JoinParsesExactly(cfg: Config, join: seq<Source>)
    requires forall k :: 0 <= k < |join| ==> CompileSource(cfg, join[k]).Ok?
    ensures ParseJoin(cfg, join).Ok?
            <==> forall k :: 0 <= k < |join| ==> "for_each" !in CompileSource(cfg, join[k]).value.names
    ensures ParseJoin(cfg, join).Err? ==> ParseJoin(cfg, join).error == RecursiveForEachReference
  {
    if join != [] {
      JoinParsesExactly(cfg, join[1..]);
      assert join == [join[0]] + join[1..];
    }
  }

  // Main result: if all its parts compile, a query is built exactly if no entry refers to the tuple it helps to form,
  // and no other part refers to a tuple that does not exist.
  lemma BuiltExactly(cfg: Config, join: seq<Source>, w: Option<Source>, shape: ShapeSource)
    requires Compiles(cfg, join, w, shape)
    ensures NewSelection(cfg, join, w, shape).Ok? <==>
              && (forall k :: 0 <= k < |join| ==> "for_each" !in CompileSource(cfg, join[k]).value.names)
              && (join == [] ==>
                    && "for_each" !in ParseShape(cfg, shape).value.names
                    && (w.Some? ==> "for_each" !in CompileSource(cfg, w.value).value.names))
    ensures NewSelection(cfg, join, w, shape).Err? ==>
              NewSelection(cfg, join, w, shape).error
              == if join == [] then MissingForEach else RecursiveForEachReference
  {
    JoinParsesExactly(cfg, join);
  }

  // ---------- written selections that go wrong ----------

  // A value on its own.
  function Lone(v: SourceValue): Source {
    Source(0, ValueAtom(v), None)
  }

  function NameOf(name: string): Source {
    Lone(PathSource(Name(name), []))
  }

  lemma LoneCompiles(cfg: Config, v: SourceValue)
    requires CompileValue(cfg, v).Ok?
    ensures var c := CompileValue(cfg, v).value;
            CompileSource(cfg, Lone(v)) == Ok(Compiled(Expression(None, Plain(c.x), None), c.names))
  {
    var c := CompileValue(cfg, v).value;
    var e := Expression(None, Plain(c.x), None);
    assert CompileOperand(cfg, 0, ValueAtom(v)) == Ok(Compiled(e, c.names));
    assert CompileItems(cfg, Lone(v)) == Ok(Compiled([Operand(e)], c.names));
    LoneOperandIsItself(e);
  }

  lemma LoneMeans(cfg: Config, v: SourceValue, sc: Scope)
    ensures Meaning(cfg, Lone(v), sc) == ValueMeaning(cfg, v, sc)
  {
    assert OperandMeaning(cfg, 0, ValueAtom(v), sc) == ValueMeaning(cfg, v, sc);
    assert RestMeaning(cfg, Lone(v), sc) == [];
  }

  // The value of a static variable is known while parsing.
  lemma VariableCompiles(cfg: Config, name: string)
    requires name in cfg.vars
    ensures CompileSource(cfg, NameOf(name))
         == Ok(Compiled(Expression(None, Plain(Literal(cfg.vars[name])), None), {}))
  {
    var v := PathSource(Name(name), []);
    var p := Path(Constant(cfg.vars[name]), []);
    assert CompileSegments(cfg, []) == Ok(Compiled([], {}));
    assert EvalSegments(cfg.lib, cfg.noErr, [], Borrowed(cfg.vars[name]), None) == Ok(Borrowed(cfg.vars[name]));
    assert EvalPath(cfg.lib, cfg.noErr, p, Scope(Null, None)) == Ok(Borrowed(cfg.vars[name]));
    assert CompileValue(cfg, v) == FoldPath(cfg, p, {} + {}) == Ok(Compiled(Literal(cfg.vars[name]), {}));
    LoneCompiles(cfg, v);
  }

  // Any other name is one to wait for.
  lemma NameCompiles(cfg: Config, name: string)
    requires name !in cfg.vars
    ensures CompileSource(cfg, NameOf(name))
         == Ok(Compiled(Expression(None, Plain(PathValue(Path(Ident(name), []))), None), {name}))
  {
    var v := PathSource(Name(name), []);
    assert CompileSegments(cfg, []) == Ok(Compiled([], {}));
    assert {} + {} + {PathName(name, [])} == {name};
    assert CompileValue(cfg, v) == FoldPath(cfg, Path(Ident(name), []), {} + {});
    LoneCompiles(cfg, v);
  }

  lemma SingleEntry(cfg: Config, s: Source)
    requires CompileSource(cfg, s).Ok? && "for_each" !in CompileSource(cfg, s).value.names
    ensures ParseJoin(cfg, [s]) == Ok([FromExpression(CompileSource(cfg, s).value.x)])
  {
    var a := FromExpression(CompileSource(cfg, s).value.x);
    assert [s][1..] == [];
    assert [a] + [] == [a];
  }

  // `for_each: [xs]` where `xs` is an array of one element, `where: for_each`, a constant `select`: nothing is
  // sent, although `where` holds for the one tuple.
  lemma BlindWhereMissesTuples(cfg: Config, xs: string, x: Json, fields: map<string, Json>)
    requires xs in cfg.vars && cfg.vars[xs] == Array([x])
    requires "for_each" !in cfg.vars && "for_each" !in fields
    ensures var (r, d) := (NewSelection(cfg, [NameOf(xs)], Some(NameOf("for_each")), NullSource), Object(fields));
            && r.Ok?
            && AsIter(cfg.lib, cfg.noErr, r.value, d) == Ok([])
            && Documented(cfg.lib, cfg.noErr, r.value, d, Product(Arrays(cfg.lib, cfg.noErr, r.value.join, d)))
               == [Ok(Owned(Null))]
  {
    var (lib, noErr, d) := (cfg.lib, cfg.noErr, Object(fields));
    VariableCompiles(cfg, xs);
    NameCompiles(cfg, "for_each");
    var a := ArgValue(Literal(Array([x])));
    var clause := Expression(None, Plain(PathValue(Path(Ident("for_each"), []))), None);
    SingleEntry(cfg, NameOf(xs));
    var sel := Selection([a], false, true, NullShape, Some(clause));
    assert NewSelection(cfg, [NameOf(xs)], Some(NameOf("for_each")), NullSource) == Ok(sel);

    var one: Outcome := Ok(Borrowed(x));
    assert EvalValue(lib, noErr, a.v, Scope(d, None)) == Ok(Borrowed(Array([x])));
    assert JoinItems(lib, noErr, a, d) == [one];
    assert Arrays(lib, noErr, sel.join, d) == [[one]];
    SingleTuple(one);
    WhereSees(lib, noErr, clause, d, None);
    WhereSees(lib, noErr, clause, d, Some([one.value]));
    assert FilteredItem(lib, noErr, sel, Ok(Scope(d, None))) == [];
    BlindWhere(lib, noErr, sel, d, [[one]]);
    assert FilteredItems(lib, noErr, sel, d, [[one]]) == [];
    assert FilteredItem(lib, noErr, sel, Ok(Scope(d, Some([one.value])))) == [Ok(Owned(Null))];
  }

  // What the name `for_each` stands for: the tuple, or nothing.
  lemma WhereSees(lib: Library, noErr: bool, e: Expression, d: Json, t: Option<seq<Cow>>)
    requires e == Expression(None, Plain(PathValue(Path(Ident("for_each"), []))), None)
    requires d.Object? && "for_each" !in d.fields
    ensures EvalExpression(lib, noErr, e, Scope(d, t))
         == Ok(Owned(if t.Some? then Array(CowValues(t.value)) else Null))
  {
    assert EvalLhs(lib, noErr, e.lhs, Scope(d, t)) == EvalValue(lib, noErr, e.lhs.v, Scope(d, t));
    assert EvalSegments(lib, noErr, [], Owned(Null), t) == Ok(Owned(Null));
  }

  // `if(true, xs, p)`, and `[n]` after it.
  function ChosenFrom(xs: string, p: string): SourceStart {
    CallSource(IfName, [Lone(BoolLiteral(true)), NameOf(xs), NameOf(p)])
  }

  function ElementOf(xs: string, p: string, n: nat): Source {
    Lone(PathSource(ChosenFrom(xs, p), [IndexSegment(n)]))
  }

  // A path into a known array is kept when a provider is mentioned on the way; as a `for_each` entry it then
  // stands for the whole array instead of its part.
  lemma DroppedRestIsNoticed(cfg: Config, xs: string, p: string, items: seq<Json>, n: nat, d: Json)
    requires xs in cfg.vars && cfg.vars[xs] == Array(items) && n < |items|
    requires p !in cfg.vars && p != "for_each"
    ensures var r := NewSelection(cfg, [ElementOf(xs, p, n)], None, NullSource);
            && r.Ok? && |r.value.join| == 1 && DropsItsRest(r.value.join[0])
            && Meaning(cfg, ElementOf(xs, p, n), Scope(d, None)) == Ok(Borrowed(items[n]))
            && JoinItems(cfg.lib, cfg.noErr, r.value.join[0], d) == Elements(Borrowed(Array(items)))
  {
    var whole := Array(items);
    ElementCompiles(cfg, xs, p, n, whole);
    ElementMeans(cfg, xs, p, items, n, d);
    var e := Expression(None, Plain(PathValue(Path(Constant(whole), [Index(n)]))), None);
    SingleEntry(cfg, ElementOf(xs, p, n));
    var a := ArgExpression(e);
    assert FromExpression(e) == a;
    assert DropsItsRest(a) && JoinItems(cfg.lib, cfg.noErr, a, d) == Elements(Borrowed(whole));
  }

  lemma FirstArgument(cfg: Config, s: Source, rest: seq<Source>)
    requires CompileSource(cfg, s).Ok? && CompileArguments(cfg, rest).Ok?
    ensures var (c, others) := (CompileSource(cfg, s).value, CompileArguments(cfg, rest).value);
            CompileArguments(cfg, [s] + rest)
            == Ok(Compiled([FromExpression(c.x)] + others.x, c.names + others.names))
  {
    assert ([s] + rest)[1..] == rest;
  }

  lemma ChoiceCompiles(cfg: Config, xs: string, p: string, whole: Json)
    requires xs in cfg.vars && cfg.vars[xs] == whole && p !in cfg.vars
    ensures CompileStart(cfg, ChosenFrom(xs, p)) == Ok(Compiled(PathStart.Constant(whole), {p}))
  {
    LoneCompiles(cfg, BoolLiteral(true));
    VariableCompiles(cfg, xs);
    NameCompiles(cfg, p);
    var (a, b, c) := (Lone(BoolLiteral(true)), NameOf(xs), NameOf(p));
    assert [a, b, c] == [a] + ([b] + ([c] + []));
    FirstArgument(cfg, c, []);
    FirstArgument(cfg, b, [c] + []);
    FirstArgument(cfg, a, [b] + ([c] + []));
    var args := CompileArguments(cfg, [a, b, c]).value;
    assert |args.x| == 3 && args.x[0] == ArgValue(Literal(Bool(true))) && args.x[1] == ArgValue(Literal(whole));
    assert args.names == {p};
  }

  lemma ElementCompiles(cfg: Config, xs: string, p: string, n: nat, whole: Json)
    requires xs in cfg.vars && cfg.vars[xs] == whole && p !in cfg.vars
    ensures CompileSource(cfg, ElementOf(xs, p, n))
         == Ok(Compiled(Expression(None, Plain(PathValue(Path(Constant(whole), [Index(n)]))), None), {p}))
  {
    ChoiceCompiles(cfg, xs, p, whole);
    var rest := [IndexSegment(n)];
    assert rest[1..] == [];
    assert CompileSegment(cfg, rest[0]) == Ok(Compiled(Index(n), {}));
    assert CompileSegments(cfg, rest[1..]) == Ok(Compiled([], {}));
    var segments := CompileSegments(cfg, rest).value;
    assert segments.x == [Index(n)] && segments.names == {};
    assert {p} + {} == {p};
    LoneCompiles(cfg, PathSource(ChosenFrom(xs, p), rest));
  }

  lemma ElementMeans(cfg: Config, xs: string, p: string, items: seq<Json>, n: nat, d: Json)
    requires xs in cfg.vars && cfg.vars[xs] == Array(items) && n < |items|
    ensures Meaning(cfg, ElementOf(xs, p, n), Scope(d, None)) == Ok(Borrowed(items[n]))
  {
    var sc := Scope(d, None);
    var whole := Borrowed(Array(items));
    LoneMeans(cfg, BoolLiteral(true), sc);
    LoneMeans(cfg, PathSource(Name(xs), []), sc);
    assert SegmentsMeaning(cfg, [], whole, None) == Ok(whole);
    assert Meaning(cfg, NameOf(xs), sc) == Ok(whole);
    assert [IndexSegment(n)][1..] == [];
    assert SegmentMeaning(cfg, IndexSegment(n), whole, None) == Ok(NumberKey(n));
    assert SegmentsMeaning(cfg, [], Borrowed(items[n]), None) == Ok(Borrowed(items[n]));
    assert SegmentsMeaning(cfg, [IndexSegment(n)], whole, None) == Ok(Borrowed(items[n]));
    assert CallMeaning(cfg, IfName, ChosenFrom(xs, p).args, sc) == Ok(whole);
    LoneMeans(cfg, PathSource(ChosenFrom(xs, p), [IndexSegment(n)]), sc);
  }
}
