/** Constructors of function calls: the ones that can be decided while parsing are replaced by their value. */
module FunctionCalls {
  import opened Wrappers
  import opened JsonValues
  import opened Expressions
  import opened SourceSyntax

  datatype Folding = Folded(j: Json) | Kept(f: FunctionCall)

  predicate IsConstant(a: Argument) {
    a.ArgValue? && a.v.Literal?
  }

  predicate IsConstantString(a: Argument) {
    IsConstant(a) && a.v.j.String?
  }

  // Values that differ at most in who owns a scalar: nothing downstream can tell them apart.
  predicate SameCow(a: Cow, b: Cow) {
    a.v == b.v && (a.owned == b.owned || IsScalar(a.v))
  }

  predicate SameOutcome(a: Outcome, b: Outcome) {
    (a.Ok? && b.Ok? && SameCow(a.value, b.value)) || (a.Err? && b.Err? && a.error == b.error)
  }

  // ---------- min and max ----------

  // The fold used while parsing: the accumulator is a JSON value, Null to begin with.
  function EvalIter(min: bool, left: Json, values: seq<Json>): Json
    decreases |values|
  {
    if values == [] then left
    else
      var right := values[0];
      var l, r := F64Value(left), F64Value(right);
      var keep := if l.Some? && r.Some? then (if min then l.value < r.value else l.value > r.value) else l.Some?;
      EvalIter(min, if keep then left else if r.Some? then right else Null, values[1..])
  }

  function MinMaxLoop(min: bool, left: Option<(real, Json)>, values: seq<Json>): Option<(real, Json)>
    decreases |values|
  {
    if values == [] then left else MinMaxLoop(min, MinMaxStep(min, left, values[0]), values[1..])
  }

  // The loop used while evaluating: the accumulator pairs the value with its number.
  method EvaluateMinMax(min: bool, values: seq<Json>) returns (v: Json)
    ensures v == BestJson(MinMaxLoop(min, None, values))
  {
    var left: Option<(real, Json)> := None;
    var i := 0;
    while i < |values|
      invariant 0 <= i <= |values|
      invariant MinMaxLoop(min, None, values) == MinMaxLoop(min, left, values[i..])
    {
      var right := values[i];
      var r := F64Value(right);
      if left.Some? {
        var l := left.value.0;
        if r.Some? && !((min && l < r.value) || (!min && l > r.value)) {
          left := Some((r.value, right));
        }
      } else if r.Some? {
        left := Some((r.value, right));
      }
      assert values[i..][1..] == values[i + 1..];
      i := i + 1;
    }
    v := if left.Some? then left.value.1 else Null;
  }

  // The two agree on every list, whatever mixture of numbers and other values it holds.
  lemma {:induction false} FoldAgreesWithLoop(min: bool, left: Option<(real, Json)>, values: seq<Json>)
    requires left.Some? ==> F64Value(left.value.1) == Some(left.value.0)
    ensures EvalIter(min, BestJson(left), values) == BestJson(MinMaxLoop(min, left, values))
    decreases |values|
  {
    if values != [] {
      FoldAgreesWithLoop(min, MinMaxStep(min, left, values[0]), values[1..]);
    }
  }

  predicate IsNumberAmong(v: Json, values: seq<Json>) {
    v.Number? && v in values
  }

  predicate NoWorse(min: bool, v: Json, w: Json)
    requires v.Number?
  {
    w.Number? ==> if min then NumberValue(v.num) <= NumberValue(w.num) else NumberValue(w.num) <= NumberValue(v.num)
  }

  // What is computed: Null when there is no number, otherwise one of the numbers that none beats.
  lemma {:induction false} MinMaxIsBest(min: bool, left: Option<(real, Json)>, values: seq<Json>)
    requires left.Some? ==> F64Value(left.value.1) == Some(left.value.0)
    ensures var best := MinMaxLoop(min, left, values);
            && (best.None? <==> left.None? && forall w :: w in values ==> !w.Number?)
            && (best.Some? ==>
                  && F64Value(best.value.1) == Some(best.value.0)
                  && ((left.Some? && best == left) || IsNumberAmong(best.value.1, values))
                  && (forall w :: w in values ==> NoWorse(min, best.value.1, w))
                  && (left.Some? ==> NoWorse(min, best.value.1, left.value.1)))
    decreases |values|
  {
    if values != [] {
      var next := MinMaxStep(min, left, values[0]);
      MinMaxIsBest(min, next, values[1..]);
      assert forall w :: w in values <==> w == values[0] || w in values[1..];
    }
  }

  function Constants(args: seq<Argument>): seq<Json> {
    if args == [] then []
    else (if IsConstant(args[0]) then [args[0].v.j] else []) + Constants(args[1..])
  }

  // ---------- constructors ----------

  function NewIf(args: seq<Argument>): Result<Folding, Error> {
    if |args| != 3 then Err(InvalidFunctionArguments)
    else
      var (first, second, third) := (args[0], args[1], args[2]);
      if IsConstant(first) && IsConstant(second) && BoolValue(first.v.j) then Ok(Folded(second.v.j))
      else if IsConstant(first) && IsConstant(third) && !BoolValue(first.v.j) then Ok(Folded(third.v.j))
      else Ok(Kept(If(first, second, third)))
  }

  function NewMinMax(min: bool, args: seq<Argument>): Result<Folding, Error> {
    if |Constants(args)| == |args| then Ok(Folded(EvalIter(min, Null, Constants(args))))
    else Ok(Kept(MinMax(min, args)))
  }

  function NewJoin(lib: Library, args: seq<Argument>): Result<Folding, Error> {
    if (|args| == 2 && IsConstantString(args[1]))
       || (|args| == 3 && IsConstantString(args[1]) && IsConstantString(args[2])) then
      var sep := args[1].v.j.s;
      var sep2 := if |args| == 3 then Some(args[2].v.j.s) else None;
      if IsConstant(args[0]) then Ok(Folded(JoinJson(lib, sep, sep2, args[0].v.j)))
      else Ok(Kept(Join(args[0], sep, sep2)))
    else Err(InvalidFunctionArguments)
  }

  function NewPad(lib: Library, start: bool, args: seq<Argument>): Result<Folding, Error> {
    if |args| == 3 && IsConstant(args[1]) && args[1].v.j.Number? && IsConstantString(args[2])
       && args[1].v.j.num.Unsigned? then
      var n, padding := args[1].v.j.num.n, args[2].v.j.s;
      if IsConstant(args[0]) then Ok(Folded(PadJson(lib, start, n, padding, args[0].v.j)))
      else Ok(Kept(Pad(start, args[0], n, padding)))
    else Err(InvalidFunctionArguments)
  }

  function NewCall(lib: Library, f: FunctionName, args: seq<Argument>): Result<Folding, Error> {
    match f
    case IfName => NewIf(args)
    case JoinName => NewJoin(lib, args)
    case MinName => NewMinMax(true, args)
    case MaxName => NewMinMax(false, args)
    case StartPadName => NewPad(lib, true, args)
    case EndPadName => NewPad(lib, false, args)
  }

  // The call with nothing decided in advance.
  function Unfolded(lib: Library, f: FunctionName, args: seq<Argument>): FunctionCall
    requires NewCall(lib, f, args).Ok?
  {
    match f
    case IfName => If(args[0], args[1], args[2])
    case JoinName => Join(args[0], args[1].v.j.s, if |args| == 3 then Some(args[2].v.j.s) else None)
    case MinName => MinMax(true, args)
    case MaxName => MinMax(false, args)
    case StartPadName => Pad(true, args[0], args[1].v.j.num.n, args[2].v.j.s)
    case EndPadName => Pad(false, args[0], args[1].v.j.num.n, args[2].v.j.s)
  }

  lemma {:induction false} ConstantArguments(args: seq<Argument>)
    ensures |Constants(args)| <= |args|
    ensures |Constants(args)| == |args| ==>
              forall i :: 0 <= i < |args| ==> IsConstant(args[i]) && args[i].v.j == Constants(args)[i]
  {
    if args != [] {
      ConstantArguments(args[1..]);
      if |Constants(args)| == |args| {
        forall i | 0 <= i < |args|
          ensures IsConstant(args[i]) && args[i].v.j == Constants(args)[i]
        {
          if i > 0 {
            assert args[i] == args[1..][i - 1];
          }
        }
      }
    }
  }

  lemma ConstantEvaluates(lib: Library, noErr: bool, a: Argument, sc: Scope)
    requires IsConstant(a)
    ensures EvalArgument(lib, noErr, a, sc) == Ok(Borrowed(a.v.j))
  {
    assert EvalValue(lib, noErr, a.v, sc) == Ok(Borrowed(a.v.j));
  }

  lemma {:induction false} ConstantMinMax(
    lib: Library, noErr: bool, min: bool, args: seq<Argument>, left: Option<(real, Json)>, sc: Scope)
    requires forall i :: 0 <= i < |args| ==> IsConstant(args[i])
    ensures EvalMinMax(lib, noErr, min, args, left, sc) == Ok(MinMaxLoop(min, left, Constants(args)))
  {
    if args != [] {
      ConstantEvaluates(lib, noErr, args[0], sc);
      ConstantMinMax(lib, noErr, min, args[1..], MinMaxStep(min, left, args[0].v.j), sc);
      assert Constants(args)[1..] == Constants(args[1..]);
    }
  }

  // Deciding a call while parsing never changes what it evaluates to, on any data and tuple.
  lemma FoldingPreservesEvaluation(lib: Library, noErr: bool, f: FunctionName, args: seq<Argument>, sc: Scope)
    requires NewCall(lib, f, args).Ok?
    ensures var call := Unfolded(lib, f, args);
            match NewCall(lib, f, args).value
            case Kept(k) => k == call
            case Folded(j) => SameOutcome(EvalCall(lib, noErr, call, sc), Ok(Borrowed(j)))
  {
    if f.MinName? || f.MaxName? {
      ConstantArguments(args);
      if |Constants(args)| == |args| {
        ConstantMinMax(lib, noErr, f.MinName?, args, None, sc);
        FoldAgreesWithLoop(f.MinName?, None, Constants(args));
        MinMaxIsBest(f.MinName?, None, Constants(args));
      }
    } else {
      forall a | a in args && IsConstant(a)
        ensures EvalArgument(lib, noErr, a, sc) == Ok(Borrowed(a.v.j))
      {
        ConstantEvaluates(lib, noErr, a, sc);
      }
    }
  }

  predicate IsConstantUnsigned(a: Argument) {
    IsConstant(a) && a.v.j.Number? && a.v.j.num.Unsigned?
  }

  // Exactly which calls are accepted: by the number of arguments, and where a text or a length has to be known.
  lemma CallIsAcceptedExactly(lib: Library, f: FunctionName, args: seq<Argument>)
    ensures NewCall(lib, f, args).Ok? <==>
              match f
              case IfName => |args| == 3
              case JoinName =>
                (|args| == 2 || |args| == 3) && forall i :: 1 <= i < |args| ==> IsConstantString(args[i])
              case MinName => true
              case MaxName => true
              case StartPadName => |args| == 3 && IsConstantUnsigned(args[1]) && IsConstantString(args[2])
              case EndPadName => |args| == 3 && IsConstantUnsigned(args[1]) && IsConstantString(args[2])
    ensures NewCall(lib, f, args).Err? ==> NewCall(lib, f, args).error == InvalidFunctionArguments
  {
  }
}
