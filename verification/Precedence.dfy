/**
 How a flat list of operands and infix operators becomes one expression.

 The reference is the layered grammar E_k := E_k op_k E_(k+1) | E_(k+1): `Layered` trees, read off in
 order by `Yield`. `ExpressionHelper` splits at the rightmost operator of the lowest level.
 */
module Precedence {
  import opened Wrappers
  import opened JsonValues
  import opened Expressions

  datatype Item = Operand(e: Expression) | Operator(o: InfixOperator)

  datatype Tree = Leaf(e: Expression) | Node(l: Tree, o: InfixOperator, r: Tree)

  function Level(o: InfixOperator): nat {
    match o
    case Or => 1
    case And => 2
    case Eq => 3
    case Ne => 3
    case Gt => 3
    case Gte => 3
    case Lt => 3
    case Lte => 3
    case Add => 4
    case Subtract => 4
    case Multiply => 5
    case Divide => 5
    case Mod => 5
  }

  // Operand, operator, operand, ..., operand.
  predicate Alternating(items: seq<Item>) {
    && |items| % 2 == 1
    && forall i :: 0 <= i < |items| ==> (items[i].Operand? <==> i % 2 == 0)
  }

  function Yield(t: Tree): seq<Item> {
    match t
    case Leaf(e) => [Operand(e)]
    case Node(l, o, r) => Yield(l) + [Operator(o)] + Yield(r)
  }

  // A derivation from E_k: operators of level k or above, left-associative within a level.
  predicate Layered(t: Tree, k: nat) {
    match t
    case Leaf(_) => true
    case Node(l, o, r) => k <= Level(o) && Layered(l, Level(o)) && Layered(r, Level(o) + 1)
  }

  lemma YieldAlternates(t: Tree)
    ensures Alternating(Yield(t))
  {
    match t
    case Leaf(_) =>
    case Node(l, o, r) =>
      YieldAlternates(l);
      YieldAlternates(r);
  }

  // ---------- the derivation is unique ----------

  // Every operator of a derivation from E_k has at least level k.
  lemma {:induction false} LevelsAbove(t: Tree, k: nat, i: nat)
    requires Layered(t, k) && i < |Yield(t)| && Yield(t)[i].Operator?
    ensures k <= Level(Yield(t)[i].o)
  {
    if t.Node? {
      var n := |Yield(t.l)|;
      if i < n {
        LevelsAbove(t.l, Level(t.o), i);
      } else if i > n {
        LevelsAbove(t.r, Level(t.o) + 1, i - n - 1);
      }
    }
  }

  // The operator at the root is the rightmost one of the lowest level.
  lemma RootIsRightmostLowest(t: Tree, k: nat, i: nat)
    requires Layered(t, k) && t.Node? && i < |Yield(t)| && Yield(t)[i].Operator?
    ensures i < |Yield(t.l)| ==> Level(t.o) <= Level(Yield(t)[i].o)
    ensures |Yield(t.l)| < i ==> Level(t.o) < Level(Yield(t)[i].o)
  {
    var n := |Yield(t.l)|;
    if i < n {
      LevelsAbove(t.l, Level(t.o), i);
    } else if n < i {
      LevelsAbove(t.r, Level(t.o) + 1, i - n - 1);
    }
  }

  lemma {:induction false} DerivationIsUnique(t: Tree, u: Tree, k: nat)
    requires Layered(t, k) && Layered(u, k) && Yield(t) == Yield(u)
    ensures t == u
  {
    YieldAlternates(t);
    YieldAlternates(u);
    if t.Node? && u.Node? {
      var n, m := |Yield(t.l)|, |Yield(u.l)|;
      assert Yield(t)[n] == Operator(t.o) && Yield(u)[m] == Operator(u.o);
      RootIsRightmostLowest(t, k, m);
      RootIsRightmostLowest(u, k, n);
      assert n == m;
      assert Yield(t.l) == Yield(t)[..n] && Yield(t.r) == Yield(t)[n + 1..];
      assert Yield(u.l) == Yield(u)[..m] && Yield(u.r) == Yield(u)[m + 1..];
      DerivationIsUnique(t.l, u.l, Level(t.o));
      DerivationIsUnique(t.r, u.r, Level(t.o) + 1);
    }
  }

  // ---------- splitting finds it ----------

  predicate AtLevel(item: Item, level: nat) {
    item.Operator? && Level(item.o) == level
  }

  // Whether every operator has at least the given level.
  predicate AtLeast(items: seq<Item>, level: nat) {
    forall i :: 0 <= i < |items| && items[i].Operator? ==> level <= Level(items[i].o)
  }

  // The last position holding an operator of the level, or -1.
  function LastAtLevel(items: seq<Item>, level: nat): (r: int)
    ensures -1 <= r < |items|
    ensures 0 <= r ==> AtLevel(items[r], level)
    ensures forall j :: r < j < |items| ==> !AtLevel(items[j], level)
  {
    if items == [] then -1
    else if AtLevel(items[|items| - 1], level) then |items| - 1
    else LastAtLevel(items[..|items| - 1], level)
  }

  lemma SplitAlternates(items: seq<Item>, level: nat, i: nat)
    requires Alternating(items) && AtLeast(items, level) && LastAtLevel(items, level) == i
    ensures items == items[..i] + [Operator(items[i].o)] + items[i + 1..]
    ensures Alternating(items[..i]) && AtLeast(items[..i], level)
    ensures Alternating(items[i + 1..]) && AtLeast(items[i + 1..], level + 1)
  {
    assert items[i].Operator?;
    forall j | 0 <= j < |items[i + 1..]|
      ensures items[i + 1..][j].Operand? <==> j % 2 == 0
    {
      assert items[i + 1..][j] == items[j + i + 1];
      SameParity(i, j);
    }
    SameParity(i, |items| - i - 1);
  }

  lemma SameParity(i: nat, j: nat)
    requires i % 2 == 1
    ensures (j + i + 1) % 2 == j % 2
  {
  }

  // The derivation found by splitting.
  function TreeOf(items: seq<Item>, level: nat): (t: Tree)
    requires Alternating(items) && AtLeast(items, level)
    ensures Yield(t) == items && Layered(t, level)
    decreases |items|, 6 - level
  {
    var i := LastAtLevel(items, level);
    if i >= 0 then
      SplitAlternates(items, level, i);
      var l := TreeOf(items[..i], level);
      var r := TreeOf(items[i + 1..], level + 1);
      Node(l, items[i].o, r)
    else if |items| == 1 then Leaf(items[0].e)
    else
      assert items[1].Operator?;
      TreeOf(items, level + 1)
  }

  // ---------- building the expression ----------

  // The operator is put on the left operand itself while that has none yet, `not` included.
  function Attach(e: Expression, o: InfixOperator, r: Expression): Expression {
    if e.op.None? then e.(op := Some(Infix(o, r))) else Expression(None, Nested(e), Some(Infix(o, r)))
  }

  function Build(t: Tree): Expression {
    match t
    case Leaf(e) => e
    case Node(l, o, r) => Attach(Build(l), o, Build(r))
  }

  // Right operands were searched at the same level; nothing at that level is left in them.
  lemma {:induction false} HigherLevelIsSameTree(items: seq<Item>, level: nat)
    requires Alternating(items) && AtLeast(items, level + 1)
    ensures TreeOf(items, level) == TreeOf(items, level + 1)
  {
    DerivationIsUnique(TreeOf(items, level), TreeOf(items, level + 1), level + 0);
  }

  // What one split contributes to the expression.
  lemma SplitBuilds(items: seq<Item>, level: nat, i: nat)
    requires Alternating(items) && AtLeast(items, level) && LastAtLevel(items, level) == i
    requires Alternating(items[..i]) && AtLeast(items[..i], level)
    requires Alternating(items[i + 1..]) && AtLeast(items[i + 1..], level + 1)
    ensures Build(TreeOf(items, level))
         == Attach(Build(TreeOf(items[..i], level)), items[i].o, Build(TreeOf(items[i + 1..], level)))
  {
    HigherLevelIsSameTree(items[i + 1..], level);
  }

  lemma SingleOperand(items: seq<Item>, level: nat)
    requires Alternating(items) && AtLeast(items, level) && |items| == 1
    ensures Build(TreeOf(items, level)) == items[0].e
  {
    assert Yield(TreeOf(items, level)) == items;
  }

  lemma NoOperatorAtLevel(items: seq<Item>, level: nat)
    requires Alternating(items) && AtLeast(items, level) && LastAtLevel(items, level) == -1
    ensures AtLeast(items, level + 1)
    ensures 5 <= level ==> |items| == 1
    ensures |items| == 1 ==> Build(TreeOf(items, level)) == items[0].e
    ensures |items| > 1 ==> TreeOf(items, level) == TreeOf(items, level + 1)
  {
    if |items| > 1 {
      assert items[1].Operator?;
    }
  }

  // `expression_helper`: the last operator of the level splits the items; no operator is ever left over.
  method ExpressionHelper(items: seq<Item>, level: nat) returns (e: Expression)
    requires Alternating(items) && AtLeast(items, level)
    ensures e == Build(TreeOf(items, level))
    decreases |items|, 6 - level
  {
    var i := FindLast(items, level);
    if 0 <= i {
      SplitAlternates(items, level, i);
      SplitBuilds(items, level, i);
      var left, right := items[..i + 1], items[i + 1..];
      var operator := left[|left| - 1].o;
      left := left[..|left| - 1];
      assert left == items[..i];
      if |left| == 1 {
        SingleOperand(left, level);
        e := left[0].e;
      } else {
        e := ExpressionHelper(left, level);
      }
      var rhs := ExpressionHelper(right, level);
      if e.op.None? {
        e := e.(op := Some(Infix(operator, rhs)));
      } else {
        e := Expression(None, Nested(e), Some(Infix(operator, rhs)));
      }
    } else {
      NoOperatorAtLevel(items, level);
      if 5 <= level || |items| == 1 {
        e := items[0].e;
      } else {
        e := ExpressionHelper(items, level + 1);
      }
    }
  }

  method FindLast(items: seq<Item>, level: nat) returns (i: int)
    ensures i == LastAtLevel(items, level)
  {
    i := |items| - 1;
    while 0 <= i && !AtLevel(items[i], level)
      invariant -1 <= i < |items|
      invariant forall j :: i < j < |items| ==> !AtLevel(items[j], level)
    {
      i := i - 1;
    }
  }

  // ---------- where `not` ends up ----------

  // An operand that would take the operator, and everything after it, under its own `not`.
  predicate CarriesNot(e: Expression) {
    e.not.Some? && e.op.None?
  }

  // Position i holds such an operand and the operator after it binds to that operand alone.
  predicate AbsorbedAt(items: seq<Item>, i: nat)
    requires Alternating(items)
  {
    && i + 1 < |items| && i % 2 == 0
    && CarriesNot(items[i].e)
    && (i == 0 || Level(items[i - 1].o) < Level(items[i + 1].o))
  }

  predicate AbsorbsNot(items: seq<Item>)
    requires Alternating(items)
  {
    exists i: nat :: i < |items| && AbsorbedAt(items, i)
  }

  // The same thing on the derivation: such an operand is a left operand.
  predicate TreeAbsorbsNot(t: Tree) {
    match t
    case Leaf(_) => false
    case Node(l, _, r) => (l.Leaf? && CarriesNot(l.e)) || TreeAbsorbsNot(l) || TreeAbsorbsNot(r)
  }

  // The expression in which every operand keeps its own `not`.
  function Faithful(t: Tree): Expression {
    match t
    case Leaf(e) => e
    case Node(l, o, r) =>
      var f := Faithful(l);
      if f.op.None? && f.not.None? then f.(op := Some(Infix(o, Faithful(r))))
      else Expression(None, Nested(f), Some(Infix(o, Faithful(r))))
  }

  lemma {:induction false} NotStaysPutExactlyWithoutAbsorption(t: Tree)
    ensures Build(t) == Faithful(t) <==> !TreeAbsorbsNot(t)
    ensures t.Node? ==> Build(t).op.Some? && Faithful(t).op.Some?
  {
    if t.Node? {
      NotStaysPutExactlyWithoutAbsorption(t.l);
      NotStaysPutExactlyWithoutAbsorption(t.r);
    }
  }

  // Evaluating a derivation operator by operator.
  function EvalTree(lib: Library, noErr: bool, t: Tree, sc: Scope): Outcome {
    match t
    case Leaf(e) => EvalExpression(lib, noErr, e, sc)
    case Node(l, o, r) => ApplyInfix(o, EvalTree(lib, noErr, l, sc), EvalTree(lib, noErr, r, sc))
  }

  lemma {:induction false} FaithfulEvaluatesAsTheTree(lib: Library, noErr: bool, t: Tree, sc: Scope)
    ensures EvalExpression(lib, noErr, Faithful(t), sc) == EvalTree(lib, noErr, t, sc)
    ensures t.Node? ==> Faithful(t).not.None?
  {
    if t.Node? {
      FaithfulEvaluatesAsTheTree(lib, noErr, t.l, sc);
      FaithfulEvaluatesAsTheTree(lib, noErr, t.r, sc);
    }
  }

  // The condition on positions and the one on derivations are the same.
  lemma {:induction false} AbsorptionByPosition(t: Tree, k: nat)
    requires Layered(t, k)
    ensures Alternating(Yield(t))
    ensures TreeAbsorbsNot(t) <==> AbsorbsNot(Yield(t))
  {
    YieldAlternates(t);
    if t.Node? {
      var n := |Yield(t.l)|;
      YieldAlternates(t.l);
      YieldAlternates(t.r);
      AbsorptionByPosition(t.l, Level(t.o));
      AbsorptionByPosition(t.r, Level(t.o) + 1);
      AbsorptionSplits(t, k);
    }
  }

  lemma AbsorbedAtSplits(t: Tree, k: nat, i: nat)
    requires Layered(t, k) && t.Node?
    requires Alternating(Yield(t)) && Alternating(Yield(t.l)) && Alternating(Yield(t.r))
    requires i < |Yield(t)| && i % 2 == 0
    ensures var n := |Yield(t.l)|;
            && (i + 1 < n ==> (AbsorbedAt(Yield(t), i) <==> AbsorbedAt(Yield(t.l), i)))
            && (i + 1 == n ==> (AbsorbedAt(Yield(t), i) <==> t.l.Leaf? && CarriesNot(t.l.e)))
            && (n < i ==> (AbsorbedAt(Yield(t), i) <==> AbsorbedAt(Yield(t.r), i - n - 1)))
  {
    var n := |Yield(t.l)|;
    if i + 1 == n && t.l.Node? {
      RootIsRightmostLowest(t, k, i - 1);
    } else if n + 1 == i && i + 1 < |Yield(t)| {
      RootIsRightmostLowest(t, k, i + 1);
    }
  }

  lemma AbsorptionSplits(t: Tree, k: nat)
    requires Layered(t, k) && t.Node?
    requires Alternating(Yield(t)) && Alternating(Yield(t.l)) && Alternating(Yield(t.r))
    ensures AbsorbsNot(Yield(t)) <==>
            (t.l.Leaf? && CarriesNot(t.l.e)) || AbsorbsNot(Yield(t.l)) || AbsorbsNot(Yield(t.r))
  {
    var y, n := Yield(t), |Yield(t.l)|;
    if i: nat :| i < |y| && AbsorbedAt(y, i) {
      AbsorbedAtSplits(t, k, i);
      assert i != n;
    }
    if (t.l.Leaf? && CarriesNot(t.l.e)) || AbsorbsNot(Yield(t.l)) || AbsorbsNot(Yield(t.r)) {
      AbsorptionJoins(t, k);
    }
  }

  lemma AbsorptionJoins(t: Tree, k: nat)
    requires Layered(t, k) && t.Node?
    requires Alternating(Yield(t)) && Alternating(Yield(t.l)) && Alternating(Yield(t.r))
    requires (t.l.Leaf? && CarriesNot(t.l.e)) || AbsorbsNot(Yield(t.l)) || AbsorbsNot(Yield(t.r))
    ensures AbsorbsNot(Yield(t))
  {
    var y, n := Yield(t), |Yield(t.l)|;
    if t.l.Leaf? && CarriesNot(t.l.e) {
      AbsorbedAtSplits(t, k, 0);
      assert AbsorbedAt(y, 0);
    } else if AbsorbsNot(Yield(t.l)) {
      var j: nat :| j < n && AbsorbedAt(Yield(t.l), j);
      AbsorbedAtSplits(t, k, j);
      assert AbsorbedAt(y, j);
    } else {
      var j: nat :| j < |Yield(t.r)| && AbsorbedAt(Yield(t.r), j);
      AbsorbedAtSplits(t, k, j + n + 1);
      assert AbsorbedAt(y, j + n + 1);
    }
  }

  // Main result on `not`: the expression built keeps every operand's `not` on that operand exactly when
  // no operand carrying one is followed by an operator that binds tighter than the one before it.
  lemma AbsorptionIsExact(items: seq<Item>)
    requires Alternating(items)
    ensures AtLeast(items, 0)
    ensures Build(TreeOf(items, 0)) == Faithful(TreeOf(items, 0)) <==> !AbsorbsNot(items)
  {
    AbsorptionByPosition(TreeOf(items, 0), 0);
    NotStaysPutExactlyWithoutAbsorption(TreeOf(items, 0));
  }

  // ---------- an independent reading: precedence climbing, left to right ----------

  datatype Applied = Applied(o: InfixOperator, operand: Outcome)

  // Takes operators of level k or above off the front of `rest`.
  function Climb(acc: Outcome, rest: seq<Applied>, k: nat): (r: (Outcome, seq<Applied>))
    ensures |r.1| <= |rest|
    ensures r.1 == [] || Level(r.1[0].o) < k
    decreases |rest|
  {
    if rest == [] || Level(rest[0].o) < k then (acc, rest)
    else
      var (rhs, others) := Climb(rest[0].operand, rest[1..], Level(rest[0].o) + 1);
      Climb(ApplyInfix(rest[0].o, acc, rhs), others, k)
  }

  function FirstOperand(t: Tree): Expression {
    if t.Leaf? then t.e else FirstOperand(t.l)
  }

  function LaterOperands(lib: Library, noErr: bool, t: Tree, sc: Scope): seq<Applied> {
    match t
    case Leaf(_) => []
    case Node(l, o, r) =>
      LaterOperands(lib, noErr, l, sc)
      + [Applied(o, EvalExpression(lib, noErr, FirstOperand(r), sc))]
      + LaterOperands(lib, noErr, r, sc)
  }

  // The same, read off the flat list.
  function ItemOperands(lib: Library, noErr: bool, items: seq<Item>, sc: Scope): seq<Applied>
    requires Alternating(items)
  {
    if |items| == 1 then []
    else
      assert items[1].Operator? && items[2].Operand?;
      assert Alternating(items[2..]) by {
        assert forall j :: 0 <= j < |items| - 2 ==> items[2..][j] == items[j + 2];
      }
      [Applied(items[1].o, EvalExpression(lib, noErr, items[2].e, sc))] + ItemOperands(lib, noErr, items[2..], sc)
  }

  // Climbing over a derivation's operands evaluates the derivation, whatever weaker operators follow.
  lemma {:induction false} ClimbEvaluatesTree(
    lib: Library, noErr: bool, t: Tree, q: nat, k: nat, more: seq<Applied>, sc: Scope)
    requires Layered(t, q) && k <= q
    requires more == [] || t.Leaf? || Level(more[0].o) <= Level(t.o)
    ensures Climb(EvalExpression(lib, noErr, FirstOperand(t), sc),
                  LaterOperands(lib, noErr, t, sc) + more, k)
         == Climb(EvalTree(lib, noErr, t, sc), more, k)
  {
    if t.Leaf? {
      assert LaterOperands(lib, noErr, t, sc) + more == more;
    } else {
      var here := Applied(t.o, EvalExpression(lib, noErr, FirstOperand(t.r), sc));
      var right := LaterOperands(lib, noErr, t.r, sc) + more;
      var rest := [here] + right;
      RegroupOperands(lib, noErr, t, more, here, right, sc);
      ClimbEvaluatesTree(lib, noErr, t.l, Level(t.o), k, rest, sc);
      ClimbEvaluatesTree(lib, noErr, t.r, Level(t.o) + 1, Level(t.o) + 1, more, sc);
      ClimbOneOperator(lib, EvalTree(lib, noErr, t.l, sc), here, right, k, EvalTree(lib, noErr, t.r, sc), more);
    }
  }

  lemma RegroupOperands(
    lib: Library, noErr: bool, t: Tree, more: seq<Applied>, here: Applied, right: seq<Applied>, sc: Scope)
    requires t.Node? && here == Applied(t.o, EvalExpression(lib, noErr, FirstOperand(t.r), sc))
    requires right == LaterOperands(lib, noErr, t.r, sc) + more
    ensures LaterOperands(lib, noErr, t, sc) + more == LaterOperands(lib, noErr, t.l, sc) + ([here] + right)
    ensures ([here] + right)[0] == here
  {
    var l, r := LaterOperands(lib, noErr, t.l, sc), LaterOperands(lib, noErr, t.r, sc);
    assert LaterOperands(lib, noErr, t, sc) == l + [here] + r;
    assert (l + [here] + r) + more == l + ([here] + (r + more));
  }

  // One operator whose right operand climbs to `v`, with `more` left over.
  lemma ClimbOneOperator(
    lib: Library, acc: Outcome, here: Applied, right: seq<Applied>, k: nat, v: Outcome, more: seq<Applied>)
    requires k <= Level(here.o)
    requires more == [] || Level(more[0].o) <= Level(here.o)
    requires Climb(here.operand, right, Level(here.o) + 1) == Climb(v, more, Level(here.o) + 1)
    ensures Climb(acc, [here] + right, k) == Climb(ApplyInfix(here.o, acc, v), more, k)
  {
    assert ([here] + right)[1..] == right;
    assert Climb(v, more, Level(here.o) + 1) == (v, more);
  }

  // What follows the first operand: nothing, or an operator and a list of its own.
  predicate IsTail(tail: seq<Item>) {
    tail == [] || (|tail| >= 2 && tail[0].Operator? && Alternating(tail[1..]))
  }

  function TailOperands(lib: Library, noErr: bool, tail: seq<Item>, sc: Scope): seq<Applied>
    requires IsTail(tail)
  {
    if tail == [] then []
    else
      assert tail[1] == tail[1..][0];
      [Applied(tail[0].o, EvalExpression(lib, noErr, tail[1].e, sc))] + ItemOperands(lib, noErr, tail[1..], sc)
  }

  lemma ItemOperandsUnfold(lib: Library, noErr: bool, e: Expression, tail: seq<Item>, sc: Scope)
    requires IsTail(tail) && Alternating([Operand(e)] + tail)
    ensures ItemOperands(lib, noErr, [Operand(e)] + tail, sc) == TailOperands(lib, noErr, tail, sc)
  {
    var items := [Operand(e)] + tail;
    if tail != [] {
      assert items[2..] == tail[1..];
    }
  }

  lemma {:induction false} ItemOperandsOfYield(lib: Library, noErr: bool, t: Tree, tail: seq<Item>, sc: Scope)
    requires IsTail(tail) && Alternating(Yield(t) + tail)
    ensures ItemOperands(lib, noErr, Yield(t) + tail, sc)
         == LaterOperands(lib, noErr, t, sc) + TailOperands(lib, noErr, tail, sc)
    ensures Yield(t)[0] == Operand(FirstOperand(t))
  {
    if t.Leaf? {
      ItemOperandsUnfold(lib, noErr, t.e, tail, sc);
    } else {
      var rest := [Operator(t.o)] + (Yield(t.r) + tail);
      TailAlternates(t.r, tail);
      RegroupNode(t, tail, rest);
      ItemOperandsOfYield(lib, noErr, t.l, rest, sc);
      ItemOperandsOfYield(lib, noErr, t.r, tail, sc);
      LaterOperandsOfNode(lib, noErr, t, rest, TailOperands(lib, noErr, tail, sc), sc);
    }
  }

  lemma RegroupNode(t: Tree, tail: seq<Item>, rest: seq<Item>)
    requires t.Node? && IsTail(tail) && Alternating(Yield(t.r) + tail)
    requires rest == [Operator(t.o)] + (Yield(t.r) + tail)
    ensures Yield(t) + tail == Yield(t.l) + rest
    ensures rest[1..] == Yield(t.r) + tail && IsTail(rest)
  {
  }

  lemma LaterOperandsOfNode(
    lib: Library, noErr: bool, t: Tree, rest: seq<Item>, more: seq<Applied>, sc: Scope)
    requires t.Node? && IsTail(rest) && rest != []
    requires rest[0] == Operator(t.o) && rest[1] == Operand(FirstOperand(t.r))
    requires ItemOperands(lib, noErr, rest[1..], sc) == LaterOperands(lib, noErr, t.r, sc) + more
    ensures LaterOperands(lib, noErr, t.l, sc) + TailOperands(lib, noErr, rest, sc)
         == LaterOperands(lib, noErr, t, sc) + more
  {
  }

  lemma TailAlternates(t: Tree, tail: seq<Item>)
    requires IsTail(tail)
    ensures Alternating(Yield(t) + tail)
  {
    YieldAlternates(t);
    var y := Yield(t) + tail;
    forall i | 0 <= i < |y|
      ensures y[i].Operand? <==> i % 2 == 0
    {
      if |Yield(t)| < i {
        assert y[i] == tail[1..][i - |Yield(t)| - 1];
      }
    }
  }

  // Main result: with no absorbed `not`, the expression built means what climbing makes of the items.
  lemma BuiltExpressionClimbs(lib: Library, noErr: bool, items: seq<Item>, sc: Scope)
    requires Alternating(items) && !AbsorbsNot(items)
    ensures AtLeast(items, 0)
    ensures EvalExpression(lib, noErr, Build(TreeOf(items, 0)), sc)
         == Climb(EvalExpression(lib, noErr, items[0].e, sc), ItemOperands(lib, noErr, items, sc), 0).0
  {
    var t := TreeOf(items, 0);
    AbsorptionByPosition(t, 0);
    NotStaysPutExactlyWithoutAbsorption(t);
    FaithfulEvaluatesAsTheTree(lib, noErr, t, sc);
    ClimbEvaluatesTree(lib, noErr, t, 0, 0, [], sc);
    assert Yield(t) + [] == items;
    ItemOperandsOfYield(lib, noErr, t, [], sc);
    assert LaterOperands(lib, noErr, t, sc) + [] == LaterOperands(lib, noErr, t, sc);
  }

  // `true || true` with a mark on the first operand, a list that no written expression leads to: the `not`
  // swallows the `||`.
  lemma AbsorbedNotChangesTheMeaning(lib: Library, noErr: bool, sc: Scope)
    ensures
      var yes := Expression(None, Plain(Literal(Bool(true))), None);
      var items := [Operand(yes.(not := Some(true))), Operator(Or), Operand(yes)];
      && Alternating(items) && AbsorbsNot(items)
      && EvalExpression(lib, noErr, Build(TreeOf(items, 0)), sc) == Ok(Owned(Bool(false)))
      && Climb(EvalExpression(lib, noErr, items[0].e, sc), ItemOperands(lib, noErr, items, sc), 0).0
         == Ok(Owned(Bool(true)))
  {
    var yes := Expression(None, Plain(Literal(Bool(true))), None);
    var negated := yes.(not := Some(true));
    OneOperator(lib, noErr, negated, Or, yes, sc);
    assert AbsorbedAt([Operand(negated), Operator(Or), Operand(yes)], 0);
    TrueValues(lib, noErr, yes, sc);
  }

  lemma TrueValues(lib: Library, noErr: bool, yes: Expression, sc: Scope)
    requires yes == Expression(None, Plain(Literal(Bool(true))), None)
    ensures var negated := yes.(not := Some(true));
            && EvalExpression(lib, noErr, Attach(negated, Or, yes), sc) == Ok(Owned(Bool(false)))
            && ApplyInfix(Or, EvalExpression(lib, noErr, negated, sc), EvalExpression(lib, noErr, yes, sc))
               == Ok(Owned(Bool(true)))
  {
    var negated := yes.(not := Some(true));
    LiteralTrue(lib, noErr, yes, sc);
    LiteralTrue(lib, noErr, negated, sc);
    LiteralTrue(lib, noErr, Attach(negated, Or, yes), sc);
  }

  // What is built of two operands, and what climbing makes of them.
  lemma OneOperator(lib: Library, noErr: bool, x: Expression, o: InfixOperator, y: Expression, sc: Scope)
    ensures var items := [Operand(x), Operator(o), Operand(y)];
            && Alternating(items) && AtLeast(items, 0) && Build(TreeOf(items, 0)) == Attach(x, o, y)
            && Climb(EvalExpression(lib, noErr, x, sc), ItemOperands(lib, noErr, items, sc), 0).0
               == ApplyInfix(o, EvalExpression(lib, noErr, x, sc), EvalExpression(lib, noErr, y, sc))
  {
    var items := [Operand(x), Operator(o), Operand(y)];
    var t := Node(Leaf(x), o, Leaf(y));
    assert Yield(t) == items;
    DerivationIsUnique(TreeOf(items, 0), t, 0);
    OneApplied(lib, noErr, x, o, y, sc);
  }

  lemma OneApplied(lib: Library, noErr: bool, x: Expression, o: InfixOperator, y: Expression, sc: Scope)
    ensures var items := [Operand(x), Operator(o), Operand(y)];
            Alternating(items)
            && ItemOperands(lib, noErr, items, sc) == [Applied(o, EvalExpression(lib, noErr, y, sc))]
    ensures [Applied(o, EvalExpression(lib, noErr, y, sc))][1..] == []
  {
    var tail := [Operator(o), Operand(y)];
    assert [Operand(x)] + tail == [Operand(x), Operator(o), Operand(y)] && tail[1..] == [Operand(y)];
    ItemOperandsUnfold(lib, noErr, x, tail, sc);
  }

  lemma LiteralTrue(lib: Library, noErr: bool, e: Expression, sc: Scope)
    requires e.lhs == Plain(Literal(Bool(true)))
    ensures EvalLhs(lib, noErr, e.lhs, sc) == Ok(Borrowed(Bool(true)))
  {
  }
}
