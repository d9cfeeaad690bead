/**
 A whole query against what was written: the tuples are formed of the elements of the `for_each` entries'
 meanings, `where` keeps some of them, and `select` is read as written -- all by the direct interpreter.
 */
module SelectQueries {
  import opened Wrappers
  import opened JsonValues
  import opened Expressions
  import opened SourceSyntax
  import opened FunctionCalls
  import opened SelectParser
  import opened SelectCorrectness
  import opened TupleOwnership
  import opened Select
  import opened SelectNew

  // ---------- the meaning of a query ----------

  function ShapeMeaning(cfg: Config, s: ShapeSource, sc: Scope): Outcome
    decreases s, 1
  {
    match s
    case NullSource => Ok(Owned(Null))
    case BoolSource(b) => Ok(Owned(Bool(b)))
    case NumberSource(n) => Ok(Owned(Number(n)))
    case ExpressionSource(e) => Meaning(cfg, e, sc)
    case ArraySource(shapes) => var items :- ShapesMeaning(cfg, shapes, sc); Ok(Owned(Array(items)))
    case ObjectSource(fields) => var m :- FieldsMeaning(cfg, fields, map[], sc); Ok(Owned(Object(m)))
  }

  function ShapesMeaning(cfg: Config, shapes: seq<ShapeSource>, sc: Scope): Result<seq<Json>, Error>
    decreases shapes, 1
  {
    if shapes == [] then Ok([])
    else
      var c :- ShapeMeaning(cfg, shapes[0], sc);
      var others :- ShapesMeaning(cfg, shapes[1..], sc);
      Ok([c.v] + others)
  }

  function FieldsMeaning(cfg: Config, fields: seq<FieldSource>, m: map<string, Json>, sc: Scope)
    : Result<map<string, Json>, Error>
    decreases fields, 1
  {
    if fields == [] then Ok(m)
    else
      var c :- FieldMeaning(cfg, fields[0], sc);
      FieldsMeaning(cfg, fields[1..], m[fields[0].key := c.v], sc)
  }

  function FieldMeaning(cfg: Config, f: FieldSource, sc: Scope): Outcome
    decreases f, 1
  {
    ShapeMeaning(cfg, f.shape, sc)
  }

  function ArraysMeaning(cfg: Config, join: seq<Source>, d: Json): seq<seq<Outcome>> {
    seq(|join|, i requires 0 <= i < |join| => ElementsOrError(Meaning(cfg, join[i], Scope(d, None))))
  }

  function WhereMeaning(cfg: Config, w: Option<Source>, sc: Scope): Outcome {
    if w.Some? then Meaning(cfg, w.value, sc) else Ok(Owned(Bool(true)))
  }

  function ItemMeaning(cfg: Config, w: Option<Source>, shape: ShapeSource, sc: Scope): seq<Outcome> {
    match WhereMeaning(cfg, w, sc)
    case Err(e) => [Err(e)]
    case Ok(c) => if BoolValue(c.v) then [ShapeMeaning(cfg, shape, sc)] else []
  }

  // What one tuple contributes.
  function TupleMeaning(cfg: Config, w: Option<Source>, shape: ShapeSource, d: Json, t: seq<Outcome>): seq<Outcome> {
    match Collect(t)
    case Ok(tuple) => ItemMeaning(cfg, w, shape, Scope(d, Some(tuple)))
    case Err(e) => [Err(e)]
  }

  function QueryMeaning(cfg: Config, w: Option<Source>, shape: ShapeSource, d: Json, tuples: seq<seq<Outcome>>)
    : seq<Outcome>
  {
    if tuples == [] then []
    else TupleMeaning(cfg, w, shape, d, tuples[0]) + QueryMeaning(cfg, w, shape, d, tuples[1..])
  }

  // ---------- where exclamation marks would be read as written, if they were handed over ----------

  predicate CleanShape(s: ShapeSource)
    decreases s, 1
  {
    match s
    case ExpressionSource(e) => Clean(e)
    case ArraySource(shapes) => CleanShapes(shapes)
    case ObjectSource(fields) => CleanFields(fields)
    case _ => true
  }

  predicate CleanShapes(shapes: seq<ShapeSource>)
    decreases shapes, 1
  {
    shapes != [] ==> CleanShape(shapes[0]) && CleanShapes(shapes[1..])
  }

  predicate CleanFields(fields: seq<FieldSource>)
    decreases fields, 1
  {
    fields != [] ==> CleanField(fields[0]) && CleanFields(fields[1..])
  }

  predicate CleanField(f: FieldSource)
    decreases f, 1
  {
    CleanShape(f.shape)
  }

  predicate CleanQuery(join: seq<Source>, w: Option<Source>, shape: ShapeSource) {
    && (forall k :: 0 <= k < |join| ==> Clean(join[k]))
    && (w.Some? ==> Clean(w.value))
    && CleanShape(shape)
  }

  // ---------- the selected value ----------

  // Compiled, and in a tuple that differs in who owns its scalars, a shape gives what was written.
  lemma {:induction false} CompiledShapeMeans(cfg: Config, s: ShapeSource, a: Scope, b: Scope)
    requires ParseShape(cfg, s).Ok? && CleanShape(s) && SameScope(a, b)
    ensures SameOutcome(EvalShape(cfg.lib, cfg.noErr, ParseShape(cfg, s).value.x, a), ShapeMeaning(cfg, s, b))
    decreases s, 1
  {
    match s
    case ExpressionSource(e) => CompiledArgumentRespects(cfg, e, a, b);
    case ArraySource(shapes) => CompiledShapesMean(cfg, shapes, a, b);
    case ObjectSource(fields) => CompiledFieldsMean(cfg, fields, map[], a, b);
    case _ =>
  }

  lemma {:induction false} CompiledShapesMean(cfg: Config, shapes: seq<ShapeSource>, a: Scope, b: Scope)
    requires ParseShapes(cfg, shapes).Ok? && CleanShapes(shapes) && SameScope(a, b)
    ensures EvalShapes(cfg.lib, cfg.noErr, ParseShapes(cfg, shapes).value.x, a) == ShapesMeaning(cfg, shapes, b)
    decreases shapes, 1
  {
    if shapes != [] {
      CompiledShapeMeans(cfg, shapes[0], a, b);
      CompiledShapesMean(cfg, shapes[1..], a, b);
      assert ParseShapes(cfg, shapes).value.x[1..] == ParseShapes(cfg, shapes[1..]).value.x;
    }
  }

  lemma {:induction false} CompiledFieldsMean(
    cfg: Config, fields: seq<FieldSource>, m: map<string, Json>, a: Scope, b: Scope)
    requires ParseFields(cfg, fields).Ok? && CleanFields(fields) && SameScope(a, b)
    ensures EvalFields(cfg.lib, cfg.noErr, ParseFields(cfg, fields).value.x, m, a) == FieldsMeaning(cfg, fields, m, b)
    decreases fields, 1
  {
    if fields != [] {
      CompiledFieldMeans(cfg, fields[0], a, b);
      assert ParseFields(cfg, fields).value.x[1..] == ParseFields(cfg, fields[1..]).value.x;
      var c := FieldMeaning(cfg, fields[0], b);
      if c.Ok? {
        CompiledFieldsMean(cfg, fields[1..], m[fields[0].key := c.value.v], a, b);
      }
    }
  }

  lemma {:induction false} CompiledFieldMeans(cfg: Config, f: FieldSource, a: Scope, b: Scope)
    requires ParseField(cfg, f).Ok? && CleanField(f) && SameScope(a, b)
    ensures SameOutcome(EvalField(cfg.lib, cfg.noErr, ParseField(cfg, f).value.x, a), FieldMeaning(cfg, f, b))
    decreases f, 1
  {
    CompiledShapeMeans(cfg, f.shape, a, b);
  }

  lemma CompiledRespects(cfg: Config, s: Source, a: Scope, b: Scope)
    requires CompileSource(cfg, s).Ok? && Clean(s) && SameScope(a, b)
    ensures SameOutcome(EvalExpression(cfg.lib, cfg.noErr, CompileSource(cfg, s).value.x, a), Meaning(cfg, s, b))
  {
    CompiledSourceMeans(cfg, s, a);
    MeaningRespectsSame(cfg, s, a, b);
    SameOutcomeTransitive(EvalExpression(cfg.lib, cfg.noErr, CompileSource(cfg, s).value.x, a),
                          Meaning(cfg, s, a), Meaning(cfg, s, b));
  }

  lemma CompiledArgumentRespects(cfg: Config, s: Source, a: Scope, b: Scope)
    requires CompileSource(cfg, s).Ok? && Clean(s) && SameScope(a, b)
    ensures SameOutcome(EvalArgument(cfg.lib, cfg.noErr, FromExpression(CompileSource(cfg, s).value.x), a),
                        Meaning(cfg, s, b))
  {
    CompiledSourceMeans(cfg, s, a);
    ArgumentMeans(cfg, s, a);
    MeaningRespectsSame(cfg, s, a, b);
    SameOutcomeTransitive(EvalArgument(cfg.lib, cfg.noErr, FromExpression(CompileSource(cfg, s).value.x), a),
                          Meaning(cfg, s, a), Meaning(cfg, s, b));
  }

  // ---------- the tuples ----------

  predicate SameOutcomes(a: seq<Outcome>, b: seq<Outcome>) {
    |a| == |b| && forall i :: 0 <= i < |a| ==> SameOutcome(a[i], b[i])
  }

  predicate SameLists(a: seq<seq<Outcome>>, b: seq<seq<Outcome>>) {
    |a| == |b| && forall i :: 0 <= i < |a| ==> SameOutcomes(a[i], b[i])
  }

  lemma ElementsRespectSame(a: Outcome, b: Outcome)
    requires SameOutcome(a, b)
    ensures SameOutcomes(ElementsOrError(a), ElementsOrError(b))
  {
  }

  lemma {:induction false} PrefixedRespectsSame(
    a: seq<Outcome>, b: seq<Outcome>, tuples: seq<seq<Outcome>>, others: seq<seq<Outcome>>)
    requires SameOutcomes(a, b) && SameLists(tuples, others)
    ensures SameLists(Prefixed(a, tuples), Prefixed(b, others))
  {
    if a != [] {
      PrefixedRespectsSame(a[1..], b[1..], tuples, others);
      var x := seq(|tuples|, i requires 0 <= i < |tuples| => [a[0]] + tuples[i]);
      var y := seq(|others|, i requires 0 <= i < |others| => [b[0]] + others[i]);
      assert Prefixed(a, tuples) == x + Prefixed(a[1..], tuples);
      assert Prefixed(b, others) == y + Prefixed(b[1..], others);
      forall i | 0 <= i < |x|
        ensures SameOutcomes(x[i], y[i])
      {
        FirstOutcomeToo(a[0], b[0], tuples[i], others[i]);
      }
      SameListsConcat(x, y, Prefixed(a[1..], tuples), Prefixed(b[1..], others));
    }
  }

  lemma FirstOutcomeToo(x: Outcome, y: Outcome, a: seq<Outcome>, b: seq<Outcome>)
    requires SameOutcome(x, y) && SameOutcomes(a, b)
    ensures SameOutcomes([x] + a, [y] + b)
  {
  }

  lemma SameListsConcat(a: seq<seq<Outcome>>, b: seq<seq<Outcome>>, c: seq<seq<Outcome>>, d: seq<seq<Outcome>>)
    requires SameLists(a, b) && SameLists(c, d)
    ensures SameLists(a + c, b + d)
  {
  }

  lemma {:induction false} ProductRespectsSame(a: seq<seq<Outcome>>, b: seq<seq<Outcome>>)
    requires SameLists(a, b)
    ensures SameLists(Product(a), Product(b))
  {
    if a != [] {
      ProductRespectsSame(a[1..], b[1..]);
      PrefixedRespectsSame(a[0], b[0], Product(a[1..]), Product(b[1..]));
    }
  }

  lemma {:induction false} CollectRespectsSame(a: seq<Outcome>, b: seq<Outcome>)
    requires SameOutcomes(a, b)
    ensures Collect(a).Ok? ==> Collect(b).Ok? && SameCows(Collect(a).value, Collect(b).value)
    ensures Collect(a).Err? ==> Collect(b).Err? && Collect(a).error == Collect(b).error
  {
    if a != [] {
      CollectRespectsSame(a[1..], b[1..]);
      assert SameOutcome(a[0], b[0]);
    }
  }

  lemma {:induction false} JoinCompiles(cfg: Config, join: seq<Source>, k: nat)
    requires ParseJoin(cfg, join).Ok? && k < |join|
    ensures CompileSource(cfg, join[k]).Ok?
    ensures ParseJoin(cfg, join).value[k] == FromExpression(CompileSource(cfg, join[k]).value.x)
  {
    if k > 0 {
      assert join[k] == join[1..][k - 1];
      JoinCompiles(cfg, join[1..], k - 1);
      assert ParseJoin(cfg, join).value[k] == ParseJoin(cfg, join[1..]).value[k - 1];
    }
  }

  // No entry drops a rest that leads elsewhere.
  predicate KeepsRests(lib: Library, noErr: bool, join: seq<Argument>) {
    forall k :: 0 <= k < |join| && DropsItsRest(join[k]) ==> LeadsToTheSame(lib, noErr, PlainPath(join[k]).value)
  }

  lemma EntryMeans(cfg: Config, join: seq<Source>, d: Json, k: nat)
    requires ParseJoin(cfg, join).Ok? && k < |join| && Clean(join[k])
    requires KeepsRests(cfg.lib, cfg.noErr, ParseJoin(cfg, join).value)
    ensures SameOutcomes(JoinItems(cfg.lib, cfg.noErr, ParseJoin(cfg, join).value[k], d),
                         ElementsOrError(Meaning(cfg, join[k], Scope(d, None))))
  {
    var a := ParseJoin(cfg, join).value[k];
    var sc := Scope(d, None);
    JoinCompiles(cfg, join, k);
    JoinItemsAreElements(cfg.lib, cfg.noErr, a, d);
    CompiledArgumentRespects(cfg, join[k], sc, sc);
    ElementsRespectSame(EvalArgument(cfg.lib, cfg.noErr, a, sc), Meaning(cfg, join[k], sc));
  }

  lemma TuplesMean(cfg: Config, join: seq<Source>, d: Json)
    requires ParseJoin(cfg, join).Ok?
    requires forall k :: 0 <= k < |join| ==> Clean(join[k])
    requires KeepsRests(cfg.lib, cfg.noErr, ParseJoin(cfg, join).value)
    ensures SameLists(Product(Arrays(cfg.lib, cfg.noErr, ParseJoin(cfg, join).value, d)),
                      Product(ArraysMeaning(cfg, join, d)))
  {
    var arrays := Arrays(cfg.lib, cfg.noErr, ParseJoin(cfg, join).value, d);
    forall k | 0 <= k < |join|
      ensures SameOutcomes(arrays[k], ArraysMeaning(cfg, join, d)[k])
    {
      EntryMeans(cfg, join, d, k);
    }
    ProductRespectsSame(arrays, ArraysMeaning(cfg, join, d));
  }

  // ---------- the whole query ----------

  lemma ItemMeans(cfg: Config, join: seq<Source>, w: Option<Source>, shape: ShapeSource, a: Scope, b: Scope)
    requires NewSelection(cfg, join, w, shape).Ok? && CleanQuery(join, w, shape) && SameScope(a, b)
    ensures SameOutcomes(FilteredItem(cfg.lib, cfg.noErr, NewSelection(cfg, join, w, shape).value, Ok(a)),
                         ItemMeaning(cfg, w, shape, b))
  {
    CompiledShapeMeans(cfg, shape, a, b);
    if w.Some? {
      CompiledRespects(cfg, w.value, a, b);
    }
  }

  lemma TupleMeans(
    cfg: Config, join: seq<Source>, w: Option<Source>, shape: ShapeSource, d: Json, t: seq<Outcome>, u: seq<Outcome>)
    requires NewSelection(cfg, join, w, shape).Ok? && CleanQuery(join, w, shape) && SameOutcomes(t, u)
    ensures SameOutcomes(DocumentedItem(cfg.lib, cfg.noErr, NewSelection(cfg, join, w, shape).value, d, t),
                         TupleMeaning(cfg, w, shape, d, u))
  {
    CollectRespectsSame(t, u);
    if Collect(t).Ok? {
      ItemMeans(cfg, join, w, shape, Scope(d, Some(Collect(t).value)), Scope(d, Some(Collect(u).value)));
    }
  }

  lemma SameOutcomesConcat(a: seq<Outcome>, b: seq<Outcome>, c: seq<Outcome>, d: seq<Outcome>)
    requires SameOutcomes(a, b) && SameOutcomes(c, d)
    ensures SameOutcomes(a + c, b + d)
  {
  }

  lemma {:induction false} DocumentedMeans(
    cfg: Config, join: seq<Source>, w: Option<Source>, shape: ShapeSource, d: Json, tuples: seq<seq<Outcome>>,
    written: seq<seq<Outcome>>)
    requires NewSelection(cfg, join, w, shape).Ok? && CleanQuery(join, w, shape) && SameLists(tuples, written)
    ensures SameOutcomes(Documented(cfg.lib, cfg.noErr, NewSelection(cfg, join, w, shape).value, d, tuples),
                         QueryMeaning(cfg, w, shape, d, written))
  {
    if tuples != [] {
      var sel := NewSelection(cfg, join, w, shape).value;
      DocumentedMeans(cfg, join, w, shape, d, tuples[1..], written[1..]);
      TupleMeans(cfg, join, w, shape, d, tuples[0], written[0]);
      SameOutcomesConcat(DocumentedItem(cfg.lib, cfg.noErr, sel, d, tuples[0]),
                         TupleMeaning(cfg, w, shape, d, written[0]),
                         Documented(cfg.lib, cfg.noErr, sel, d, tuples[1..]),
                         QueryMeaning(cfg, w, shape, d, written[1..]));
    }
  }

  // Where `select` does not refer to the tuple, everything documented is its one value or an error.
  lemma {:induction false} DocumentedElements(
    lib: Library, noErr: bool, sel: Selection, d: Json, tuples: seq<seq<Outcome>>)
    requires FlagsCover(sel) && !sel.referencesForEach && AllEvaluate(tuples)
    ensures forall r :: r in Documented(lib, noErr, sel, d, tuples) ==>
              r.Err? || r == EvalShape(lib, noErr, sel.shape, Scope(d, None))
  {
    if tuples != [] {
      assert tuples[0] in tuples;
      ClausesIgnoreTheTuple(lib, noErr, sel, d, Collect(tuples[0]).value);
      DocumentedElements(lib, noErr, sel, d, tuples[1..]);
    }
  }

  // So the blind look cannot be right in all but ownership.
  lemma BlindSameIsEqual(lib: Library, noErr: bool, sel: Selection, d: Json, tuples: seq<seq<Outcome>>)
    requires FlagsCover(sel) && !sel.referencesForEach && AllEvaluate(tuples)
    requires SameOutcomes(FilteredItems(lib, noErr, sel, d, tuples), Documented(lib, noErr, sel, d, tuples))
    ensures FilteredItems(lib, noErr, sel, d, tuples) == Documented(lib, noErr, sel, d, tuples)
  {
    var a, b := FilteredItems(lib, noErr, sel, d, tuples), Documented(lib, noErr, sel, d, tuples);
    BlindWhere(lib, noErr, sel, d, tuples);
    DocumentedElements(lib, noErr, sel, d, tuples);
    var value := EvalShape(lib, noErr, sel.shape, Scope(d, None));
    forall i | 0 <= i < |a|
      ensures a[i] == b[i]
    {
      assert a[i] in a && b[i] in b && SameOutcome(a[i], b[i]);
      assert a[i].Err? || a[i] == value;
    }
  }

  lemma SameIsEqual(lib: Library, noErr: bool, sel: Selection, d: Json)
    requires FlagsCover(sel) && (sel.join == [] ==> !sel.referencesForEach && !sel.whereReferencesForEach)
    requires AllEvaluate(Product(Arrays(lib, noErr, sel.join, d)))
    requires var tuples := Product(Arrays(lib, noErr, sel.join, d));
             AsIter(lib, noErr, sel, d).Ok?
             && SameOutcomes(AsIter(lib, noErr, sel, d).value, Documented(lib, noErr, sel, d, tuples))
    ensures LooksRight(lib, noErr, sel, d, Product(Arrays(lib, noErr, sel.join, d)))
  {
    var tuples := Product(Arrays(lib, noErr, sel.join, d));
    if sel.whereReferencesForEach && !sel.referencesForEach {
      BlindSameIsEqual(lib, noErr, sel, d, tuples);
      BlindWhereIsRight(lib, noErr, sel, d, tuples);
    }
  }

  lemma SameOutcomesTransitive(a: seq<Outcome>, b: seq<Outcome>, c: seq<Outcome>)
    requires SameOutcomes(a, b) && SameOutcomes(b, c)
    ensures SameOutcomes(a, c)
  {
    forall i | 0 <= i < |a|
      ensures SameOutcome(a[i], c[i])
    {
      assert SameOutcome(a[i], b[i]) && SameOutcome(b[i], c[i]);
    }
  }

  lemma SameOutcomesSymmetric(a: seq<Outcome>, b: seq<Outcome>)
    requires SameOutcomes(a, b)
    ensures SameOutcomes(b, a)
  {
  }

  lemma EvaluateAlike(a: seq<seq<Outcome>>, b: seq<seq<Outcome>>)
    requires SameLists(a, b) && AllEvaluate(b)
    ensures AllEvaluate(a)
  {
    forall i | 0 <= i < |a|
      ensures Collect(a[i]).Ok?
    {
      assert b[i] in b;
      CollectRespectsSame(a[i], b[i]);
    }
  }

  // What a built query sends is what it means as written, but for who owns scalars.
  ghost predicate SendsAsWritten(
    cfg: Config, sel: Selection, join: seq<Source>, w: Option<Source>, shape: ShapeSource, d: Json)
  {
    && AsIter(cfg.lib, cfg.noErr, sel, d).Ok?
    && SameOutcomes(AsIter(cfg.lib, cfg.noErr, sel, d).value,
                    QueryMeaning(cfg, w, shape, d, Product(ArraysMeaning(cfg, join, d))))
  }

  // Main result: if the `for_each` entries evaluate and none drops a rest, a built query sends what it means as
  // written exactly if it looks at `where` as it should.
  lemma BuiltQueryMeansWhatIsWritten(cfg: Config, join: seq<Source>, w: Option<Source>, shape: ShapeSource, d: Json)
    requires NewSelection(cfg, join, w, shape).Ok? && CleanQuery(join, w, shape)
    requires KeepsRests(cfg.lib, cfg.noErr, NewSelection(cfg, join, w, shape).value.join)
    requires AllEvaluate(Product(ArraysMeaning(cfg, join, d)))
    ensures var sel := NewSelection(cfg, join, w, shape).value;
            var tuples := Product(Arrays(cfg.lib, cfg.noErr, sel.join, d));
            && AllEvaluate(tuples)
            && (SendsAsWritten(cfg, sel, join, w, shape, d) <==> LooksRight(cfg.lib, cfg.noErr, sel, d, tuples))
  {
    var sel := NewSelection(cfg, join, w, shape).value;
    var tuples, written := Product(Arrays(cfg.lib, cfg.noErr, sel.join, d)), Product(ArraysMeaning(cfg, join, d));
    TuplesMean(cfg, join, d);
    EvaluateAlike(tuples, written);
    BuiltFlagsCover(cfg, join, w, shape);
    DocumentedMeans(cfg, join, w, shape, d, tuples, written);
    var documented, meaning := Documented(cfg.lib, cfg.noErr, sel, d, tuples), QueryMeaning(cfg, w, shape, d, written);
    IteratorFiltersTuples(cfg.lib, cfg.noErr, sel, d);
    if SendsAsWritten(cfg, sel, join, w, shape, d) {
      SameOutcomesSymmetric(documented, meaning);
      SameOutcomesTransitive(AsIter(cfg.lib, cfg.noErr, sel, d).value, meaning, documented);
      SameIsEqual(cfg.lib, cfg.noErr, sel, d);
    }
  }

  // ---------- the elements of one entry ----------

  // `for_each[0]`
  function FirstOfTuple(): Source {
    Lone(PathSource(Name("for_each"), [IndexSegment(0)]))
  }

  lemma FirstOfTupleMeans(cfg: Config, d: Json, c: Cow)
    requires "for_each" !in cfg.vars
    ensures Meaning(cfg, FirstOfTuple(), Scope(d, Some([c]))) == Ok(c)
  {
    var v := PathSource(Name("for_each"), [IndexSegment(0)]);
    var sc := Scope(d, Some([c]));
    LoneMeans(cfg, v, sc);
    assert v.rest[1..] == [];
    assert SegmentsMeaning(cfg, [], c, sc.forEach) == Ok(c);
    assert PathMeaning(cfg, v, sc) == Ok(c);
  }

  // The tuples of one array.
  lemma TuplesOfOne(items: seq<Outcome>)
    ensures items == [] ==> Product([items]) == []
    ensures items != [] ==> Product([items]) == [[items[0]]] + Product([items[1..]])
  {
    var none: seq<Outcome> := [];
    var tuples := [none];
    assert [items][1..] == [] && Product([]) == tuples;
    if items != [] {
      assert [items[1..]][1..] == [];
      var first := seq(|tuples|, i requires 0 <= i < |tuples| => [items[0]] + tuples[i]);
      assert first == [[items[0]]] by {
        assert first[0] == [items[0]] + none == [items[0]];
      }
      assert Prefixed(items, tuples) == first + Prefixed(items[1..], tuples);
    }
  }

  lemma {:induction false} OneByOne(cfg: Config, d: Json, items: seq<Outcome>)
    requires "for_each" !in cfg.vars
    ensures QueryMeaning(cfg, None, ExpressionSource(FirstOfTuple()), d, Product([items])) == items
  {
    TuplesOfOne(items);
    if items != [] {
      OneByOne(cfg, d, items[1..]);
      assert Product([items])[1..] == Product([items[1..]]);
      TupleOfOne(cfg, d, items[0]);
      assert items == [items[0]] + items[1..];
    }
  }

  lemma TupleOfOne(cfg: Config, d: Json, x: Outcome)
    requires "for_each" !in cfg.vars
    ensures TupleMeaning(cfg, None, ExpressionSource(FirstOfTuple()), d, [x]) == [x]
  {
    SingleTuple(x);
    if x.Ok? {
      FirstOfTupleMeans(cfg, d, x.value);
    }
  }

  // `for_each: [e]`, no `where`, `select: for_each[0]`
  function EachOf(cfg: Config, e: Source): Result<Selection, SelectError> {
    NewSelection(cfg, [e], None, ExpressionSource(FirstOfTuple()))
  }

  // Main result: such a query sends exactly the elements of an array, in order, and anything else as it is.
  lemma ElementsAreSent(cfg: Config, e: Source, d: Json)
    requires "for_each" !in cfg.vars && Clean(e) && Meaning(cfg, e, Scope(d, None)).Ok?
    requires EachOf(cfg, e).Ok? && KeepsRests(cfg.lib, cfg.noErr, EachOf(cfg, e).value.join)
    ensures var j := Meaning(cfg, e, Scope(d, None)).value.v;
            var sent := if j.Array? then j.items else [j];
            var r := AsIter(cfg.lib, cfg.noErr, EachOf(cfg, e).value, d);
            && r.Ok? && |r.value| == |sent|
            && forall i :: 0 <= i < |sent| ==> r.value[i].Ok? && r.value[i].value.v == sent[i]
  {
    var items := ElementsOrError(Meaning(cfg, e, Scope(d, None)));
    ItemsAreSent(cfg, e, d, items);
    var r := AsIter(cfg.lib, cfg.noErr, EachOf(cfg, e).value, d).value;
    assert forall i :: 0 <= i < |items| ==> SameOutcome(r[i], items[i]);
  }

  lemma ItemsAreSent(cfg: Config, e: Source, d: Json, items: seq<Outcome>)
    requires "for_each" !in cfg.vars && Clean(e) && items == ElementsOrError(Meaning(cfg, e, Scope(d, None)))
    requires EachOf(cfg, e).Ok? && KeepsRests(cfg.lib, cfg.noErr, EachOf(cfg, e).value.join)
    requires forall x :: x in items ==> x.Ok?
    ensures var r := AsIter(cfg.lib, cfg.noErr, EachOf(cfg, e).value, d); r.Ok? && SameOutcomes(r.value, items)
  {
    var shape := ExpressionSource(FirstOfTuple());
    assert ArraysMeaning(cfg, [e], d) == [items];
    OneByOne(cfg, d, items);
    SinglesEvaluate(items);
    BuiltQueryMeansWhatIsWritten(cfg, [e], None, shape, d);
    assert SendsAsWritten(cfg, EachOf(cfg, e).value, [e], None, shape, d);
  }

  lemma {:induction false} SinglesEvaluate(items: seq<Outcome>)
    requires forall x :: x in items ==> x.Ok?
    ensures AllEvaluate(Product([items]))
  {
    TuplesOfOne(items);
    if items != [] {
      SinglesEvaluate(items[1..]);
      SingleTuple(items[0]);
    }
  }
}
