/**
 `select` / `for_each` / `where`: the tuples of the `for_each` arrays, filtered and mapped. A `where`
 clause that does not refer to the tuple is evaluated once, before any tuple is formed.
 */
module Select {
  import opened Wrappers
  import opened JsonValues
  import opened Expressions
  import opened References

  datatype Shape =
    | NullShape
    | BoolShape(b: bool)
    | NumberShape(n: JsonNumber)
    | ExpressionShape(a: Argument)
    | ArrayShape(shapes: seq<Shape>)
    | ObjectShape(fields: seq<Field>)

  datatype Field = Field(key: string, shape: Shape)

  datatype Selection = Selection(
    join: seq<Argument>,
    referencesForEach: bool,
    whereReferencesForEach: bool,
    shape: Shape,
    whereClause: Option<Expression>)

  // ---------- the selected value ----------

  function EvalShape(lib: Library, noErr: bool, s: Shape, sc: Scope): Outcome
    decreases s, 1
  {
    match s
    case NullShape => Ok(Owned(Null))
    case BoolShape(b) => Ok(Owned(Bool(b)))
    case NumberShape(n) => Ok(Owned(Number(n)))
    case ExpressionShape(a) => EvalArgument(lib, noErr, a, sc)
    case ArrayShape(shapes) => var items :- EvalShapes(lib, noErr, shapes, sc); Ok(Owned(Array(items)))
    case ObjectShape(fields) => var m :- EvalFields(lib, noErr, fields, map[], sc); Ok(Owned(Object(m)))
  }

  function EvalShapes(lib: Library, noErr: bool, shapes: seq<Shape>, sc: Scope): Result<seq<Json>, Error>
    decreases shapes, 1
  {
    if shapes == [] then Ok([])
    else
      var c :- EvalShape(lib, noErr, shapes[0], sc);
      var others :- EvalShapes(lib, noErr, shapes[1..], sc);
      Ok([c.v] + others)
  }

  function EvalFields(lib: Library, noErr: bool, fields: seq<Field>, m: map<string, Json>, sc: Scope)
    : Result<map<string, Json>, Error>
    decreases fields, 1
  {
    if fields == [] then Ok(m)
    else
      var c :- EvalField(lib, noErr, fields[0], sc);
      EvalFields(lib, noErr, fields[1..], m[fields[0].key := c.v], sc)
  }

  function EvalField(lib: Library, noErr: bool, f: Field, sc: Scope): Outcome
    decreases f, 1
  {
    EvalShape(lib, noErr, f.shape, sc)
  }

  function ShapeNames(s: Shape): set<string>
    decreases s, 1
  {
    match s
    case ExpressionShape(a) => ArgumentNames(a)
    case ArrayShape(shapes) => ShapesNames(shapes)
    case ObjectShape(fields) => FieldNames(fields)
    case _ => {}
  }

  function ShapesNames(shapes: seq<Shape>): set<string>
    decreases shapes, 1
  {
    if shapes == [] then {} else ShapeNames(shapes[0]) + ShapesNames(shapes[1..])
  }

  function FieldNames(fields: seq<Field>): set<string>
    decreases fields, 1
  {
    if fields == [] then {} else OneFieldNames(fields[0]) + FieldNames(fields[1..])
  }

  function OneFieldNames(f: Field): set<string>
    decreases f, 1
  {
    ShapeNames(f.shape)
  }

  lemma {:induction false} ShapeDependsOnNames(lib: Library, noErr: bool, s: Shape, a: Scope, b: Scope)
    requires Agree(ShapeNames(s), a, b)
    ensures EvalShape(lib, noErr, s, a) == EvalShape(lib, noErr, s, b)
    decreases s, 1
  {
    match s
    case ExpressionShape(arg) => ArgumentDependsOnNames(lib, noErr, arg, a, b);
    case ArrayShape(shapes) => ShapesDependOnNames(lib, noErr, shapes, a, b);
    case ObjectShape(fields) => FieldsDependOnNames(lib, noErr, fields, map[], a, b);
    case _ =>
  }

  lemma {:induction false} ShapesDependOnNames(lib: Library, noErr: bool, shapes: seq<Shape>, a: Scope, b: Scope)
    requires Agree(ShapesNames(shapes), a, b)
    ensures EvalShapes(lib, noErr, shapes, a) == EvalShapes(lib, noErr, shapes, b)
    decreases shapes, 1
  {
    if shapes != [] {
      ShapeDependsOnNames(lib, noErr, shapes[0], a, b);
      ShapesDependOnNames(lib, noErr, shapes[1..], a, b);
    }
  }

  lemma {:induction false} FieldsDependOnNames(
    lib: Library, noErr: bool, fields: seq<Field>, m: map<string, Json>, a: Scope, b: Scope)
    requires Agree(FieldNames(fields), a, b)
    ensures EvalFields(lib, noErr, fields, m, a) == EvalFields(lib, noErr, fields, m, b)
    decreases fields, 1
  {
    if fields != [] {
      FieldDependsOnNames(lib, noErr, fields[0], a, b);
      var c := EvalField(lib, noErr, fields[0], a);
      if c.Ok? {
        FieldsDependOnNames(lib, noErr, fields[1..], m[fields[0].key := c.value.v], a, b);
      }
    }
  }

  lemma {:induction false} FieldDependsOnNames(lib: Library, noErr: bool, f: Field, a: Scope, b: Scope)
    requires Agree(OneFieldNames(f), a, b)
    ensures EvalField(lib, noErr, f, a) == EvalField(lib, noErr, f, b)
    decreases f, 1
  {
    ShapeDependsOnNames(lib, noErr, f.shape, a, b);
  }

  // ---------- the `for_each` arrays ----------

  // The elements of an array; anything else stands for itself.
  function Elements(c: Cow): seq<Outcome> {
    if c.v.Array? then seq(|c.v.items|, i requires 0 <= i < |c.v.items| => Ok(Cow(c.v.items[i], c.owned)))
    else [Ok(c)]
  }

  function ElementsOrError(r: Outcome): seq<Outcome> {
    match r
    case Ok(c) => Elements(c)
    case Err(e) => [Err(e)]
  }

  // A plain value reached by no operator and no `not`.
  function PlainPath(a: Argument): Option<Path> {
    match a
    case ArgValue(v) => if v.PathValue? then Some(v.p) else None
    case ArgExpression(e) =>
      if e.op.None? && e.not.None? && e.lhs.Plain? && e.lhs.v.PathValue? then Some(e.lhs.v.p) else None
  }

  // A path whose walk was put off, from a value known while parsing.
  predicate DropsItsRest(a: Argument) {
    PlainPath(a).Some? && PlainPath(a).value.start.Constant? && PlainPath(a).value.rest != []
  }

  // `evaluate_as_iter` of one `for_each` entry: a path from a known value is not walked.
  function JoinItems(lib: Library, noErr: bool, a: Argument, d: Json): seq<Outcome> {
    if PlainPath(a).Some? && PlainPath(a).value.start.Constant? then
      Elements(Borrowed(PlainPath(a).value.start.j))
    else
      ElementsOrError(EvalArgument(lib, noErr, a, Scope(d, None)))
  }

  // Walking the rest leads to the elements of the whole.
  predicate LeadsToTheSame(lib: Library, noErr: bool, p: Path)
    requires p.start.Constant?
  {
    ElementsOrError(EvalSegments(lib, noErr, p.rest, Borrowed(p.start.j), None)) == Elements(Borrowed(p.start.j))
  }

  // An entry is iterated as the elements of its value exactly if no rest is dropped that leads elsewhere.
  lemma JoinItemsAreElements(lib: Library, noErr: bool, a: Argument, d: Json)
    ensures JoinItems(lib, noErr, a, d) == ElementsOrError(EvalArgument(lib, noErr, a, Scope(d, None)))
            <==> !DropsItsRest(a) || LeadsToTheSame(lib, noErr, PlainPath(a).value)
  {
    var p := PlainPath(a);
    if p.Some? && p.value.start.Constant? {
      var v := PathValue(p.value);
      var sc := Scope(d, None);
      var start := Borrowed(p.value.start.j);
      assert EvalSegments(lib, noErr, [], start, None) == Ok(start);
      assert EvalPath(lib, noErr, p.value, sc) == EvalSegments(lib, noErr, p.value.rest, start, None);
      assert EvalValue(lib, noErr, v, sc) == EvalPath(lib, noErr, p.value, sc);
      if a.ArgExpression? {
        assert EvalLhs(lib, noErr, a.e.lhs, sc) == EvalValue(lib, noErr, v, sc);
      }
    }
  }

  // ---------- tuples ----------

  // The cartesian product, the last array varying fastest.
  function Product(arrays: seq<seq<Outcome>>): seq<seq<Outcome>> {
    if arrays == [] then [[]] else Prefixed(arrays[0], Product(arrays[1..]))
  }

  function Prefixed(items: seq<Outcome>, tuples: seq<seq<Outcome>>): seq<seq<Outcome>> {
    if items == [] then []
    else seq(|tuples|, i requires 0 <= i < |tuples| => [items[0]] + tuples[i]) + Prefixed(items[1..], tuples)
  }

  function Lengths(arrays: seq<seq<Outcome>>): nat {
    if arrays == [] then 1 else |arrays[0]| * Lengths(arrays[1..])
  }

  lemma {:induction false} PrefixedAt(items: seq<Outcome>, tuples: seq<seq<Outcome>>, i: nat, j: nat)
    requires i < |items| && j < |tuples|
    ensures |Prefixed(items, tuples)| == |items| * |tuples|
    ensures 0 <= i * |tuples| + j < |Prefixed(items, tuples)|
    ensures Prefixed(items, tuples)[i * |tuples| + j] == [items[i]] + tuples[j]
  {
    PrefixedLength(items, tuples);
    if i == 0 {
    } else {
      PrefixedAt(items[1..], tuples, i - 1, j);
      assert i * |tuples| + j == |tuples| + ((i - 1) * |tuples| + j);
    }
  }

  lemma {:induction false} PrefixedLength(items: seq<Outcome>, tuples: seq<seq<Outcome>>)
    ensures |Prefixed(items, tuples)| == |items| * |tuples|
  {
    if items != [] {
      PrefixedLength(items[1..], tuples);
      assert |items| * |tuples| == |tuples| + |items[1..]| * |tuples|;
    }
  }

  // As many tuples as the product of the lengths.
  lemma {:induction false} ProductLength(arrays: seq<seq<Outcome>>)
    ensures |Product(arrays)| == Lengths(arrays)
  {
    if arrays != [] {
      ProductLength(arrays[1..]);
      PrefixedLength(arrays[0], Product(arrays[1..]));
    }
  }

  predicate Choice(arrays: seq<seq<Outcome>>, index: seq<nat>) {
    && |index| == |arrays|
    && forall k :: 0 <= k < |index| ==> index[k] < |arrays[k]|
  }

  // Where the tuple with the given indexes comes: lexicographic order.
  function Rank(arrays: seq<seq<Outcome>>, index: seq<nat>): nat
    requires Choice(arrays, index)
  {
    if arrays == [] then 0 else index[0] * Lengths(arrays[1..]) + Rank(arrays[1..], index[1..])
  }

  lemma {:induction false} ProductAtRank(arrays: seq<seq<Outcome>>, index: seq<nat>)
    requires Choice(arrays, index)
    ensures Rank(arrays, index) < |Product(arrays)|
    ensures Product(arrays)[Rank(arrays, index)]
         == seq(|arrays|, k requires 0 <= k < |arrays| => arrays[k][index[k]])
  {
    if arrays != [] {
      ProductAtRank(arrays[1..], index[1..]);
      ProductLength(arrays[1..]);
      PrefixedAt(arrays[0], Product(arrays[1..]), index[0], Rank(arrays[1..], index[1..]));
    }
  }

  // ---------- the iterator ----------

  function Collect(t: seq<Outcome>): Result<seq<Cow>, Error> {
    if t == [] then Ok([])
    else
      var c :- t[0];
      var others :- Collect(t[1..]);
      Ok([c] + others)
  }

  // The tuple an evaluation sees: none unless the selected value refers to it.
  function TupleScope(sel: Selection, d: Json, t: seq<Outcome>): Result<Scope, Error> {
    if sel.referencesForEach then (var tuple :- Collect(t); Ok(Scope(d, Some(tuple)))) else Ok(Scope(d, None))
  }

  // What one tuple yields when `where` is looked at per tuple.
  function FilteredItem(lib: Library, noErr: bool, sel: Selection, sc: Result<Scope, Error>): seq<Outcome> {
    match sc
    case Err(e) => [Err(e)]
    case Ok(scope) =>
      var w := if sel.whereClause.Some? then EvalExpression(lib, noErr, sel.whereClause.value, scope)
               else Ok(Owned(Bool(true)));
      if w.Err? then [Err(w.error)]
      else if BoolValue(w.value.v) then [EvalShape(lib, noErr, sel.shape, scope)]
      else []
  }

  function FilteredItems(lib: Library, noErr: bool, sel: Selection, d: Json, tuples: seq<seq<Outcome>>): seq<Outcome> {
    if tuples == [] then []
    else FilteredItem(lib, noErr, sel, TupleScope(sel, d, tuples[0]))
         + FilteredItems(lib, noErr, sel, d, tuples[1..])
  }

  function SelectedItems(lib: Library, noErr: bool, sel: Selection, d: Json, tuples: seq<seq<Outcome>>): seq<Outcome> {
    if tuples == [] then []
    else
      [match TupleScope(sel, d, tuples[0])
       case Err(e) => Err(e)
       case Ok(sc) => EvalShape(lib, noErr, sel.shape, sc)]
      + SelectedItems(lib, noErr, sel, d, tuples[1..])
  }

  function Arrays(lib: Library, noErr: bool, join: seq<Argument>, d: Json): seq<seq<Outcome>> {
    seq(|join|, i requires 0 <= i < |join| => JoinItems(lib, noErr, join[i], d))
  }

  // `as_iter`: an error of a `where` clause that is looked at once ends everything.
  function AsIter(lib: Library, noErr: bool, sel: Selection, d: Json): Result<seq<Outcome>, Error> {
    if sel.join != [] && sel.whereReferencesForEach then
      Ok(FilteredItems(lib, noErr, sel, d, Product(Arrays(lib, noErr, sel.join, d))))
    else
      var w :- if sel.whereClause.Some? then EvalExpression(lib, noErr, sel.whereClause.value, Scope(d, None))
               else Ok(Owned(Bool(true)));
      if !BoolValue(w.v) then Ok([])
      else if sel.join == [] then Ok([EvalShape(lib, noErr, sel.shape, Scope(d, None))])
      else Ok(SelectedItems(lib, noErr, sel, d, Product(Arrays(lib, noErr, sel.join, d))))
  }

  // ---------- what it is documented to be ----------

  // `where` decides, tuple by tuple, whether `select` is evaluated for it.
  function DocumentedItem(lib: Library, noErr: bool, sel: Selection, d: Json, t: seq<Outcome>): seq<Outcome> {
    match Collect(t)
    case Ok(tuple) => FilteredItem(lib, noErr, sel, Ok(Scope(d, Some(tuple))))
    case Err(e) => [Err(e)]
  }

  function Documented(lib: Library, noErr: bool, sel: Selection, d: Json, tuples: seq<seq<Outcome>>): seq<Outcome> {
    if tuples == [] then []
    else DocumentedItem(lib, noErr, sel, d, tuples[0]) + Documented(lib, noErr, sel, d, tuples[1..])
  }

  // The flags cover what the clauses refer to, as `Select::new` sets them.
  predicate FlagsCover(sel: Selection) {
    && ("for_each" in ShapeNames(sel.shape) ==> sel.referencesForEach)
    && (sel.whereClause.Some? && "for_each" in ExpressionNames(sel.whereClause.value) ==> sel.whereReferencesForEach)
  }

  predicate AllEvaluate(tuples: seq<seq<Outcome>>) {
    forall t :: t in tuples ==> Collect(t).Ok?
  }

  // A clause that does not refer to the tuple has one value in all tuples.
  lemma ClausesIgnoreTheTuple(lib: Library, noErr: bool, sel: Selection, d: Json, t: seq<Cow>)
    requires FlagsCover(sel)
    ensures !sel.referencesForEach ==>
              EvalShape(lib, noErr, sel.shape, Scope(d, None)) == EvalShape(lib, noErr, sel.shape, Scope(d, Some(t)))
    ensures sel.whereClause.Some? && !sel.whereReferencesForEach ==>
              EvalExpression(lib, noErr, sel.whereClause.value, Scope(d, None))
              == EvalExpression(lib, noErr, sel.whereClause.value, Scope(d, Some(t)))
  {
    if !sel.referencesForEach {
      ShapeDependsOnNames(lib, noErr, sel.shape, Scope(d, None), Scope(d, Some(t)));
    }
    if sel.whereClause.Some? && !sel.whereReferencesForEach {
      ExpressionDependsOnNames(lib, noErr, sel.whereClause.value, Scope(d, None), Scope(d, Some(t)));
    }
  }

  lemma {:induction false} HoistedWhereFilters(
    lib: Library, noErr: bool, sel: Selection, d: Json, tuples: seq<seq<Outcome>>, w: Outcome)
    requires FlagsCover(sel) && AllEvaluate(tuples) && !sel.whereReferencesForEach
    requires w == if sel.whereClause.Some? then EvalExpression(lib, noErr, sel.whereClause.value, Scope(d, None))
                  else Ok(Owned(Bool(true)))
    requires w.Ok?
    ensures Documented(lib, noErr, sel, d, tuples)
         == if BoolValue(w.value.v) then SelectedItems(lib, noErr, sel, d, tuples) else []
  {
    if tuples != [] {
      HoistedWhereFilters(lib, noErr, sel, d, tuples[1..], w);
      assert tuples[0] in tuples;
      ClausesIgnoreTheTuple(lib, noErr, sel, d, Collect(tuples[0]).value);
    }
  }

  lemma {:induction false} PerTupleWhereFilters(
    lib: Library, noErr: bool, sel: Selection, d: Json, tuples: seq<seq<Outcome>>)
    requires sel.referencesForEach
    ensures Documented(lib, noErr, sel, d, tuples) == FilteredItems(lib, noErr, sel, d, tuples)
  {
    if tuples != [] {
      PerTupleWhereFilters(lib, noErr, sel, d, tuples[1..]);
    }
  }

  // In that case one look at `where`, without any tuple, settles every tuple alike.
  lemma {:induction false} BlindWhere(lib: Library, noErr: bool, sel: Selection, d: Json, tuples: seq<seq<Outcome>>)
    requires !sel.referencesForEach
    ensures var one := FilteredItem(lib, noErr, sel, Ok(Scope(d, None)));
            && |FilteredItems(lib, noErr, sel, d, tuples)| == |tuples| * |one|
            && forall r :: r in FilteredItems(lib, noErr, sel, d, tuples) ==> r in one
  {
    if tuples != [] {
      BlindWhere(lib, noErr, sel, d, tuples[1..]);
      var one := FilteredItem(lib, noErr, sel, Ok(Scope(d, None)));
      assert |tuples| * |one| == |one| + |tuples[1..]| * |one|;
    }
  }

  // Looking at `where` in the scope of a tuple gives what looking at it without any tuple gives.
  ghost predicate SeenBlindly(lib: Library, noErr: bool, sel: Selection, d: Json, t: seq<Outcome>)
    requires Collect(t).Ok?
  {
    FilteredItem(lib, noErr, sel, Ok(Scope(d, Some(Collect(t).value))))
    == FilteredItem(lib, noErr, sel, Ok(Scope(d, None)))
  }

  ghost predicate AllSeenBlindly(lib: Library, noErr: bool, sel: Selection, d: Json, tuples: seq<seq<Outcome>>)
    requires AllEvaluate(tuples)
  {
    forall t :: t in tuples ==> SeenBlindly(lib, noErr, sel, d, t)
  }

  lemma FirstSeenBlindly(lib: Library, noErr: bool, sel: Selection, d: Json, tuples: seq<seq<Outcome>>)
    requires tuples != [] && AllEvaluate(tuples)
    ensures Collect(tuples[0]).Ok? && AllEvaluate(tuples[1..])
    ensures AllSeenBlindly(lib, noErr, sel, d, tuples)
            <==> SeenBlindly(lib, noErr, sel, d, tuples[0]) && AllSeenBlindly(lib, noErr, sel, d, tuples[1..])
  {
    assert tuples[0] in tuples && tuples == [tuples[0]] + tuples[1..];
  }

  lemma {:induction false} DocumentedLength(
    lib: Library, noErr: bool, sel: Selection, d: Json, tuples: seq<seq<Outcome>>)
    ensures |Documented(lib, noErr, sel, d, tuples)| <= |tuples|
  {
    if tuples != [] {
      DocumentedLength(lib, noErr, sel, d, tuples[1..]);
    }
  }

  lemma BlindLength(lib: Library, noErr: bool, sel: Selection, d: Json, tuples: seq<seq<Outcome>>)
    requires !sel.referencesForEach
    ensures var one := FilteredItem(lib, noErr, sel, Ok(Scope(d, None)));
            |FilteredItems(lib, noErr, sel, d, tuples)| == if one == [] then 0 else |tuples|
  {
    BlindWhere(lib, noErr, sel, d, tuples);
    var one := FilteredItem(lib, noErr, sel, Ok(Scope(d, None)));
    assert |one| == 0 ==> |tuples| * |one| == 0;
    assert |one| == 1 ==> |tuples| * |one| == |tuples|;
  }

  // The blind look is right exactly if it is right for every tuple.
  lemma {:induction false} BlindWhereIsRight(
    lib: Library, noErr: bool, sel: Selection, d: Json, tuples: seq<seq<Outcome>>)
    requires !sel.referencesForEach && AllEvaluate(tuples)
    ensures Documented(lib, noErr, sel, d, tuples) == FilteredItems(lib, noErr, sel, d, tuples)
            <==> AllSeenBlindly(lib, noErr, sel, d, tuples)
  {
    if tuples != [] {
      var rest := tuples[1..];
      FirstSeenBlindly(lib, noErr, sel, d, tuples);
      BlindWhereIsRight(lib, noErr, sel, d, rest);
      BlindLength(lib, noErr, sel, d, rest);
      DocumentedLength(lib, noErr, sel, d, rest);
      var one := FilteredItem(lib, noErr, sel, Ok(Scope(d, None)));
      var item := DocumentedItem(lib, noErr, sel, d, tuples[0]);
      assert SeenBlindly(lib, noErr, sel, d, tuples[0]) <==> item == one;
      assert |item| <= 1 && |one| <= 1;
      HeadsAgree(item, Documented(lib, noErr, sel, d, rest), one, FilteredItems(lib, noErr, sel, d, rest));
    }
  }

  // Of at most one element each and followed by no more than the others, the heads of equal sequences are equal.
  lemma HeadsAgree(item: seq<Outcome>, a: seq<Outcome>, one: seq<Outcome>, b: seq<Outcome>)
    requires |item| <= 1 && |one| <= 1 && if one == [] then b == [] else |a| <= |b|
    ensures item + a == one + b <==> item == one && a == b
  {
    if item + a == one + b {
      assert |item| + |a| == |one| + |b|;
      if one == [] {
        assert item == [] && a == [];
      } else {
        assert |item| == 1 && (item + a)[0] == (one + b)[0];
        assert a == (item + a)[1..] && b == (one + b)[1..];
      }
    }
  }

  // Whether the iterator looks at `where` as it should: once if it evaluates, and per tuple unless the selected
  // value does not refer to the tuple, so that `where` never gets to see it.
  ghost predicate LooksRight(lib: Library, noErr: bool, sel: Selection, d: Json, tuples: seq<seq<Outcome>>)
    requires AllEvaluate(tuples)
  {
    if sel.whereReferencesForEach then
      sel.referencesForEach || AllSeenBlindly(lib, noErr, sel, d, tuples)
    else
      sel.whereClause.Some? ==> EvalExpression(lib, noErr, sel.whereClause.value, Scope(d, None)).Ok?
  }

  // Main result: the iterator yields, in order, what filtering tuple by tuple yields exactly if it looks at
  // `where` as it should.
  lemma IteratorFiltersTuples(lib: Library, noErr: bool, sel: Selection, d: Json)
    requires FlagsCover(sel) && (sel.join == [] ==> !sel.referencesForEach && !sel.whereReferencesForEach)
    requires AllEvaluate(Product(Arrays(lib, noErr, sel.join, d)))
    ensures var tuples := Product(Arrays(lib, noErr, sel.join, d));
            AsIter(lib, noErr, sel, d) == Ok(Documented(lib, noErr, sel, d, tuples))
            <==> LooksRight(lib, noErr, sel, d, tuples)
  {
    var tuples := Product(Arrays(lib, noErr, sel.join, d));
    if sel.whereReferencesForEach {
      if sel.referencesForEach {
        PerTupleWhereFilters(lib, noErr, sel, d, tuples);
      } else {
        BlindWhereIsRight(lib, noErr, sel, d, tuples);
      }
    } else {
      var w := if sel.whereClause.Some? then EvalExpression(lib, noErr, sel.whereClause.value, Scope(d, None))
               else Ok(Owned(Bool(true)));
      if w.Ok? {
        HoistedWhereFilters(lib, noErr, sel, d, tuples, w);
        if sel.join == [] {
          NoTuple(lib, noErr, sel, d);
        }
      }
    }
  }

  // Without `for_each` there is one empty tuple.
  lemma NoTuple(lib: Library, noErr: bool, sel: Selection, d: Json)
    requires sel.join == [] && !sel.referencesForEach
    ensures Product(Arrays(lib, noErr, sel.join, d)) == [[]]
    ensures SelectedItems(lib, noErr, sel, d, [[]]) == [EvalShape(lib, noErr, sel.shape, Scope(d, None))]
  {
    var none: seq<Outcome> := [];
    assert [none][1..] == [];
  }

  lemma SingleTuple(one: Outcome)
    ensures Product([[one]]) == [[one]]
    ensures one.Ok? ==> Collect([one]) == Ok([one.value])
    ensures [[one]][1..] == []
  {
    assert [[one]][1..] == [] && [one][1..] == [];
    assert Product([]) == [[]];
    assert Prefixed([], [[]]) == [];
    assert [one] + [] == [one];
    assert Prefixed([one], [[]]) == [[one]];
    var none: seq<Outcome> := [];
    assert Collect(none) == Ok([]);
    if one.Ok? {
      assert [one][1..] == none;
      assert [one.value] + [] == [one.value];
    }
  }
}
