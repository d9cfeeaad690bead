/** What the operators of select expressions, and the fill of the padding functions, amount to. */
module OperatorLaws {
  import opened Wrappers
  import opened Arithmetic
  import opened JsonValues
  import opened Expressions
  import opened Precedence

  // ---------- what the operators compute ----------

  // What counts as false: null, false, the number 0 and the empty text.
  lemma FalseValues(j: Json)
    ensures !BoolValue(j) <==>
              j == Null || j == Bool(false) || j == String("") || (j.Number? && NumberValue(j.num) == 0.0)
  {
  }

  lemma BooleanOperators(left: Json, right: Json)
    ensures EvaluateInfix(And, left, Ok(right)) == Ok(Bool(BoolValue(left) && BoolValue(right)))
    ensures EvaluateInfix(Or, left, Ok(right)) == Ok(Bool(BoolValue(left) || BoolValue(right)))
  {
  }

  // The right operand's error surfaces, unless `&&` or `||` is decided by the left one.
  lemma RightErrorSurfacesExactly(o: InfixOperator, left: Json, e: Error)
    ensures EvaluateInfix(o, left, Err(e)) ==
              if o.And? && !BoolValue(left) then Ok(Bool(false))
              else if o.Or? && BoolValue(left) then Ok(Bool(true))
              else Err(e)
  {
  }

  // Integers are compared as such, whatever kind of number they are kept as.
  lemma IntegersCompare(i: int, n: nat, r: real)
    ensures Holds(Lt, Number(Negative(i)), Number(Unsigned(n))) <==> i < n
    ensures Holds(Lt, Number(Unsigned(n)), Number(Negative(i))) <==> n < i
    ensures Holds(Lt, Number(Float(r)), Number(Negative(i))) <==> r < i as real
    ensures Holds(Lt, Number(Float(r)), Number(Unsigned(n))) <==> r < n as real
  {
  }

  predicate Holds(o: InfixOperator, left: Json, right: Json) {
    EvaluateInfix(o, left, Ok(right)) == Ok(Bool(true))
  }

  // A comparison has a truth value; of numbers it is theirs, and of anything else only equality can hold.
  lemma ComparisonsOrderNumbers(o: InfixOperator, a: Json, b: Json)
    requires o in {Eq, Ne, Gt, Gte, Lt, Lte}
    ensures EvaluateInfix(o, a, Ok(b)) == Ok(Bool(Holds(o, a, b)))
    ensures Holds(Eq, a, b) <==> a == b
    ensures Holds(Ne, a, b) <==> a != b
    ensures a.Number? && b.Number? ==>
              var (x, y) := (NumberValue(a.num), NumberValue(b.num));
              && (Holds(Lt, a, b) <==> x < y) && (Holds(Lte, a, b) <==> x <= y)
              && (Holds(Gt, a, b) <==> x > y) && (Holds(Gte, a, b) <==> x >= y)
    ensures !(a.Number? && b.Number?) && o !in {Eq, Ne} ==> !Holds(o, a, b)
  {
  }

  // Whether a number survives being turned into JSON: it is not negative, not above the largest integer if it is
  // one, and not within the tolerance above one.
  predicate IsKept(n: real) {
    var whole := n.Floor as real;
    n >= 0.0 && if n == whole then n.Floor <= U64_MAX else n - whole >= EPSILON
  }

  // A number comes out, the one it should be exactly if that is kept; what is negative comes out as 0.
  predicate Gives(r: Result<Json, Error>, n: real) {
    && r.Ok? && r.value.Number?
    && (NumberValue(r.value.num) == n <==> IsKept(n))
    && (n < 0.0 ==> NumberValue(r.value.num) == 0.0)
  }

  // The result of an operator on two numbers, the left one first.
  predicate IsResult(o: InfixOperator, x: real, y: real, n: real) {
    match o
    case Add => n == x + y
    case Subtract => n == x - y
    case Multiply => n == x * y
    case Divide => y != 0.0 && n == x / y
    case Mod => y != 0.0 && n == Remainder(x, y)
    case _ => false
  }

  lemma ResultIsCalculated(o: InfixOperator, x: real, y: real, n: real)
    requires IsResult(o, x, y, n)
    ensures Calculate(o, Some(x), Some(y)) == Some(n)
  {
    assert CalculateReals(o, x, y) == Some(n);
  }

  lemma CalculatedIsGiven(o: InfixOperator, a: Json, b: Json, n: real)
    requires o in {Add, Subtract, Multiply, Divide, Mod} && Calculate(o, F64Value(a), F64Value(b)) == Some(n)
    ensures Gives(EvaluateInfix(o, a, Ok(b)), n)
  {
    assert EvaluateInfix(o, a, Ok(b)) == Ok(ToJsonNumber(Some(n)));
  }

  // Main result: arithmetic on two numbers gives the operator's result.
  lemma ArithmeticOnNumbers(o: InfixOperator, a: Json, b: Json, n: real)
    requires a.Number? && b.Number? && IsResult(o, NumberValue(a.num), NumberValue(b.num), n)
    ensures Gives(EvaluateInfix(o, a, Ok(b)), n)
  {
    ResultIsCalculated(o, NumberValue(a.num), NumberValue(b.num), n);
    CalculatedIsGiven(o, a, b, n);
  }

  // Dividing by 0, and arithmetic on anything but numbers, gives null.
  lemma NoArithmetic(o: InfixOperator, a: Json, b: Json)
    requires o in {Add, Subtract, Multiply, Divide, Mod}
    requires a.Number? && b.Number? ==> (o.Divide? || o.Mod?) && NumberValue(b.num) == 0.0
    ensures EvaluateInfix(o, a, Ok(b)) == Ok(Null)
  {
  }

  // What is left of `x` by some multiple of `y`: less than `y`, with the sign of `x`.
  ghost predicate IsRemainder(x: real, y: real, z: real) {
    && (exists k: int :: x == Multiple(y, k) + z)
    && -Magnitude(y) < z < Magnitude(y) && (x >= 0.0 ==> z >= 0.0) && (x <= 0.0 ==> z <= 0.0)
  }

  function Multiple(y: real, k: int): real {
    y * (k as real)
  }

  function Magnitude(x: real): real {
    if x < 0.0 then -x else x
  }

  // The result of `%` is a remainder.
  lemma RemainderIsOne(x: real, y: real)
    requires y != 0.0
    ensures IsRemainder(x, y, Remainder(x, y))
  {
    var q := x / y;
    assert y * q == x;
    RemainderOf(x, y, q, y * q, y * Trunc(q));
  }

  lemma RemainderOf(x: real, y: real, q: real, whole: real, part: real)
    requires y != 0.0 && whole == y * q == x && part == y * Trunc(q)
    ensures IsRemainder(x, y, x - part)
  {
    var k := if q >= 0.0 then q.Floor else -((-q).Floor);
    var f := q - Trunc(q);
    assert x - part == y * f by {
      Distributes(y, q, Trunc(q));
    }
    assert -1.0 < f < 1.0 && (q >= 0.0 ==> f >= 0.0) && (q <= 0.0 ==> f <= 0.0);
    SignOfProduct(y, q);
    SignOfProduct(y, f);
    ShrinksTowardsZero(y, f);
    assert x == Multiple(y, k) + (x - part);
  }

  lemma Distributes(a: real, b: real, c: real)
    ensures a * (b - c) == a * b - a * c
  {
  }

  lemma SignOfProduct(a: real, b: real)
    requires a != 0.0
    ensures a * b > 0.0 <==> (a > 0.0 && b > 0.0) || (a < 0.0 && b < 0.0)
    ensures a * b == 0.0 <==> b == 0.0
  {
  }

  lemma ShrinksTowardsZero(a: real, f: real)
    requires a != 0.0 && -1.0 < f < 1.0
    ensures -Magnitude(a) < a * f < Magnitude(a)
  {
    LessTimes(f, 1.0, Magnitude(a), f * Magnitude(a), Magnitude(a));
    LessTimes(-1.0, f, Magnitude(a), -Magnitude(a), f * Magnitude(a));
    assert a * f == f * Magnitude(a) || a * f == -(f * Magnitude(a));
  }

  // The smaller of two numbers less the larger is 0.
  lemma NegativeDifferenceIsZero(a: Json, b: Json)
    requires a.Number? && b.Number? && NumberValue(a.num) < NumberValue(b.num)
    ensures EvaluateInfix(Subtract, a, Ok(b)) == Ok(Number(Unsigned(0)))
  {
  }

  // ---------- layers of operators ----------

  // Loosest first.
  const LAYERS: seq<set<InfixOperator>> :=
    [{Or}, {And}, {Eq, Ne, Gt, Gte, Lt, Lte}, {Add, Subtract}, {Multiply, Divide, Mod}]

  lemma LayerOf(o: InfixOperator)
    ensures exists i :: 0 <= i < |LAYERS| && o in LAYERS[i]
    ensures forall i :: 0 <= i < |LAYERS| && o in LAYERS[i] ==> Level(o) == i + 1
  {
    assert o in LAYERS[Level(o) - 1];
  }

  // ---------- chains of operators ----------

  type Chain = seq<(InfixOperator, Expression)>

  function ItemsOf(first: Expression, chain: Chain): (items: seq<Item>)
    ensures |items| == 2 * |chain| + 1
    decreases |chain|
  {
    if chain == [] then [Operand(first)]
    else [Operand(first), Operator(chain[0].0)] + ItemsOf(chain[0].1, chain[1..])
  }

  // Applied from left to right, and from right to left.
  function LeftComb(t: Tree, chain: Chain): Tree
    decreases |chain|
  {
    if chain == [] then t else LeftComb(Node(t, chain[0].0, Leaf(chain[0].1)), chain[1..])
  }

  function RightComb(first: Expression, chain: Chain): Tree
    decreases |chain|
  {
    if chain == [] then Leaf(first) else Node(Leaf(first), chain[0].0, RightComb(chain[0].1, chain[1..]))
  }

  predicate NeverTighter(chain: Chain) {
    forall i :: 0 <= i < |chain| - 1 ==> Level(chain[i].0) >= Level(chain[i + 1].0)
  }

  predicate EverTighter(chain: Chain) {
    forall i :: 0 <= i < |chain| - 1 ==> Level(chain[i].0) < Level(chain[i + 1].0)
  }

  lemma {:induction false} ChainAlternates(first: Expression, chain: Chain)
    ensures Alternating(ItemsOf(first, chain)) && AtLeast(ItemsOf(first, chain), 0)
    decreases |chain|
  {
    if chain != [] {
      ChainAlternates(chain[0].1, chain[1..]);
    }
  }

  lemma {:induction false} RightCombYields(first: Expression, chain: Chain)
    ensures Yield(RightComb(first, chain)) == ItemsOf(first, chain)
    decreases |chain|
  {
    if chain != [] {
      RightCombYields(chain[0].1, chain[1..]);
    }
  }

  lemma {:induction false} RightCombLayered(first: Expression, chain: Chain, k: nat)
    ensures Layered(RightComb(first, chain), k)
            <==> EverTighter(chain) && (chain != [] ==> k <= Level(chain[0].0))
    decreases |chain|
  {
    if chain != [] {
      RightCombLayered(chain[0].1, chain[1..], Level(chain[0].0) + 1);
      assert EverTighter(chain)
        <==> EverTighter(chain[1..]) && (|chain| > 1 ==> Level(chain[0].0) < Level(chain[1].0));
    }
  }

  // Main result: operators are applied from right to left exactly if each binds tighter than the one before.
  lemma RightToLeftExactly(first: Expression, chain: Chain)
    ensures Alternating(ItemsOf(first, chain)) && AtLeast(ItemsOf(first, chain), 0)
    ensures TreeOf(ItemsOf(first, chain), 0) == RightComb(first, chain) <==> EverTighter(chain)
  {
    ChainAlternates(first, chain);
    RightCombYields(first, chain);
    RightCombLayered(first, chain, 0);
    if EverTighter(chain) {
      DerivationIsUnique(TreeOf(ItemsOf(first, chain), 0), RightComb(first, chain), 0);
    }
  }

  // The items that come after those of a tree.
  function Following(chain: Chain): seq<Item> {
    if chain == [] then [] else [Operator(chain[0].0), Operand(chain[0].1)] + Following(chain[1..])
  }

  lemma {:induction false} ItemsFollow(first: Expression, chain: Chain)
    ensures ItemsOf(first, chain) == [Operand(first)] + Following(chain)
    decreases |chain|
  {
    if chain != [] {
      ItemsFollow(chain[0].1, chain[1..]);
    }
  }

  lemma {:induction false} LeftCombYields(t: Tree, chain: Chain)
    ensures Yield(LeftComb(t, chain)) == Yield(t) + Following(chain)
    decreases |chain|
  {
    if chain != [] {
      LeftCombYields(Node(t, chain[0].0, Leaf(chain[0].1)), chain[1..]);
    }
  }

  lemma {:induction false} LeftCombLayered(t: Tree, chain: Chain)
    ensures Layered(LeftComb(t, chain), 0)
            <==> NeverTighter(chain) && Layered(t, if chain == [] then 0 else Level(chain[0].0))
    decreases |chain|
  {
    if chain != [] {
      var next := Node(t, chain[0].0, Leaf(chain[0].1));
      LeftCombLayered(next, chain[1..]);
      assert NeverTighter(chain)
        <==> NeverTighter(chain[1..]) && (|chain| > 1 ==> Level(chain[0].0) >= Level(chain[1].0));
    }
  }

  // Main result: operators are applied from left to right exactly if none binds tighter than the one before.
  lemma LeftToRightExactly(first: Expression, chain: Chain)
    ensures Alternating(ItemsOf(first, chain)) && AtLeast(ItemsOf(first, chain), 0)
    ensures TreeOf(ItemsOf(first, chain), 0) == LeftComb(Leaf(first), chain) <==> NeverTighter(chain)
  {
    ChainAlternates(first, chain);
    ItemsFollow(first, chain);
    LeftCombYields(Leaf(first), chain);
    LeftCombLayered(Leaf(first), chain);
    if NeverTighter(chain) {
      DerivationIsUnique(TreeOf(ItemsOf(first, chain), 0), LeftComb(Leaf(first), chain), 0);
    }
  }

  function Three(x: Expression, o: InfixOperator, y: Expression, p: InfixOperator, z: Expression): seq<Item> {
    [Operand(x), Operator(o), Operand(y), Operator(p), Operand(z)]
  }

  // Of two operators the one of the later layer is applied first, and of one layer the left one.
  lemma TwoOperators(
    x: Expression, o: InfixOperator, y: Expression, p: InfixOperator, z: Expression, i: nat, j: nat)
    requires i < |LAYERS| && o in LAYERS[i] && j < |LAYERS| && p in LAYERS[j]
    ensures var items := Three(x, o, y, p, z);
            && Alternating(items) && AtLeast(items, 0)
            && TreeOf(items, 0)
               == if i < j then Node(Leaf(x), o, Node(Leaf(y), p, Leaf(z)))
                  else Node(Node(Leaf(x), o, Leaf(y)), p, Leaf(z))
  {
    LayerOf(o);
    LayerOf(p);
    var items := Three(x, o, y, p, z);
    if i < j {
      var right := Node(Leaf(y), p, Leaf(z));
      assert Yield(right) == [Operand(y), Operator(p), Operand(z)];
      assert Yield(Node(Leaf(x), o, right)) == items;
      DerivationIsUnique(TreeOf(items, 0), Node(Leaf(x), o, right), 0);
    } else {
      var left := Node(Leaf(x), o, Leaf(y));
      assert Yield(left) == [Operand(x), Operator(o), Operand(y)];
      assert Yield(Node(left, p, Leaf(z))) == items;
      DerivationIsUnique(TreeOf(items, 0), Node(left, p, Leaf(z)), 0);
    }
  }

  // Main result: so the expression built of them evaluates the later layer first, and of one layer from left to
  // right.
  lemma TwoOperatorsEvaluate(
    lib: Library, noErr: bool, sc: Scope, x: Expression, o: InfixOperator, y: Expression, p: InfixOperator,
    z: Expression, i: nat, j: nat)
    requires x.not.None? && y.not.None?
    requires i < |LAYERS| && o in LAYERS[i] && j < |LAYERS| && p in LAYERS[j]
    ensures Alternating(Three(x, o, y, p, z)) && AtLeast(Three(x, o, y, p, z), 0)
    ensures var (a, b, c) := (EvalExpression(lib, noErr, x, sc), EvalExpression(lib, noErr, y, sc),
                              EvalExpression(lib, noErr, z, sc));
            EvalExpression(lib, noErr, Build(TreeOf(Three(x, o, y, p, z), 0)), sc)
            == if i < j then ApplyInfix(o, a, ApplyInfix(p, b, c)) else ApplyInfix(p, ApplyInfix(o, a, b), c)
  {
    TwoOperators(x, o, y, p, z, i, j);
    if i < j {
      NestedRight(lib, noErr, sc, x, o, y, p, z);
    } else {
      NestedLeft(lib, noErr, sc, x, o, y, p, z);
    }
  }

  lemma UnmarkedTreeEvaluates(lib: Library, noErr: bool, sc: Scope, t: Tree)
    requires !TreeAbsorbsNot(t)
    ensures EvalExpression(lib, noErr, Build(t), sc) == EvalTree(lib, noErr, t, sc)
  {
    NotStaysPutExactlyWithoutAbsorption(t);
    FaithfulEvaluatesAsTheTree(lib, noErr, t, sc);
  }

  lemma NestedRight(
    lib: Library, noErr: bool, sc: Scope, x: Expression, o: InfixOperator, y: Expression, p: InfixOperator,
    z: Expression)
    requires x.not.None? && y.not.None?
    ensures EvalExpression(lib, noErr, Build(Node(Leaf(x), o, Node(Leaf(y), p, Leaf(z)))), sc)
         == ApplyInfix(o, EvalExpression(lib, noErr, x, sc),
                       ApplyInfix(p, EvalExpression(lib, noErr, y, sc), EvalExpression(lib, noErr, z, sc)))
  {
    var right := Node(Leaf(y), p, Leaf(z));
    assert !TreeAbsorbsNot(right);
    UnmarkedTreeEvaluates(lib, noErr, sc, Node(Leaf(x), o, right));
    assert EvalTree(lib, noErr, right, sc)
        == ApplyInfix(p, EvalExpression(lib, noErr, y, sc), EvalExpression(lib, noErr, z, sc));
  }

  lemma NestedLeft(
    lib: Library, noErr: bool, sc: Scope, x: Expression, o: InfixOperator, y: Expression, p: InfixOperator,
    z: Expression)
    requires x.not.None? && y.not.None?
    ensures EvalExpression(lib, noErr, Build(Node(Node(Leaf(x), o, Leaf(y)), p, Leaf(z))), sc)
         == ApplyInfix(p, ApplyInfix(o, EvalExpression(lib, noErr, x, sc), EvalExpression(lib, noErr, y, sc)),
                       EvalExpression(lib, noErr, z, sc))
  {
    var left := Node(Leaf(x), o, Leaf(y));
    assert !TreeAbsorbsNot(left);
    UnmarkedTreeEvaluates(lib, noErr, sc, Node(left, p, Leaf(z)));
    assert EvalTree(lib, noErr, left, sc)
        == ApplyInfix(o, EvalExpression(lib, noErr, x, sc), EvalExpression(lib, noErr, y, sc));
  }

  // ---------- padding ----------

  function Concatenated(parts: seq<string>): string {
    if parts == [] then "" else parts[0] + Concatenated(parts[1..])
  }

  // The padding's graphemes over and over, `count` of them.
  function Cycle(g: seq<string>, count: nat, at: nat): (r: seq<string>)
    requires g != []
    ensures |r| == count
    ensures forall i :: 0 <= i < count ==> r[i] == g[(at + i) % |g|]
  {
    seq(count, i requires 0 <= i < count => g[(at + i) % |g|])
  }

  lemma WrapAround(i: nat, n: nat)
    requires n > 0
    ensures (n + i) % n == i % n
    ensures i < n ==> i % n == i
  {
    assert n + i == (i / n + 1) * n + i % n;
    RemainderIs(n + i, n, i / n + 1, i % n);
    if i < n {
      RemainderIs(i, n, 0, i);
    }
  }

  lemma {:induction false} FillCycles(g: seq<string>, count: nat, at: nat)
    requires g != [] && at < |g|
    ensures CycleTake(g, count, at) == Concatenated(Cycle(g, count, at))
    decreases count
  {
    if count > 0 {
      var next := if at + 1 == |g| then 0 else at + 1;
      FillCycles(g, count - 1, next);
      WrapAround(at, |g|);
      forall i | 0 <= i < count - 1
        ensures Cycle(g, count, at)[1..][i] == Cycle(g, count - 1, next)[i]
      {
        WrapAround(i, |g|);
      }
      assert Cycle(g, count, at)[1..] == Cycle(g, count - 1, next);
    }
  }

  // A text shorter than asked for is filled up, on the side asked for, with exactly the graphemes that are
  // missing, taken from the padding in turn; a longer one, or an empty padding, adds nothing.
  lemma PaddingFillsUp(lib: Library, start: bool, minLength: nat, padding: string, j: Json)
    ensures var s, g := JsonToString(lib, j), lib.graphemes(padding);
            var n := |lib.graphemes(s)|;
            PadJson(lib, start, minLength, padding, j)
            == if minLength <= n || g == [] then String(s)
               else
                 var fill := Concatenated(Cycle(g, minLength - n, 0));
                 String(if start then fill + s else s + fill)
  {
    var s, g := JsonToString(lib, j), lib.graphemes(padding);
    var n := |lib.graphemes(s)|;
    if g == [] || minLength <= n {
      NothingMissing(g, if n < minLength then minLength - n else 0, s);
    } else {
      FillCycles(g, minLength - n, 0);
    }
  }

  lemma NothingMissing(g: seq<string>, count: nat, s: string)
    requires g == [] || count == 0
    ensures CycleTake(g, count, 0) + s == s == s + CycleTake(g, count, 0)
  {
  }
}
