/**
 The compiled form of a select expression and its evaluator.

 `Cow` keeps apart values that are borrowed from the input (or from the expression) and values
 that were built during evaluation: indexing an owned object with a number fails where the same
 object, borrowed, would be searched for the decimal key.
 */
module Expressions {
  import opened Wrappers
  import opened JsonValues

  datatype InfixOperator =
    Add | And | Divide | Eq | Gt | Gte | Lt | Lte | Mod | Multiply | Ne | Or | Subtract

  datatype Expression = Expression(not: Option<bool>, lhs: Lhs, op: Option<Infix>)

  datatype Infix = Infix(o: InfixOperator, rhs: Expression)

  datatype Lhs = Nested(e: Expression) | Plain(v: Value)

  datatype Value = PathValue(p: Path) | Literal(j: Json) | Template(pieces: seq<Piece>)

  datatype Piece = Hole(arg: Argument) | Text(s: string)

  // A value or an expression: what a function argument or a template hole holds.
  datatype Argument = ArgValue(v: Value) | ArgExpression(e: Expression)

  datatype Path = Path(start: PathStart, rest: seq<Segment>)

  datatype PathStart = Call(f: FunctionCall) | Ident(name: string) | Constant(j: Json)

  datatype Segment = Index(n: nat) | Key(s: string) | KeyTemplate(pieces: seq<Piece>)

  datatype FunctionCall =
    | If(first: Argument, second: Argument, third: Argument)
    | MinMax(min: bool, args: seq<Argument>)
    | Join(arg: Argument, sep: string, sep2: Option<string>)
    | Pad(start: bool, padArg: Argument, minLength: nat, padding: string)

  datatype Cow = Cow(v: Json, owned: bool)

  function Borrowed(j: Json): Cow {
    Cow(j, false)
  }

  function Owned(j: Json): Cow {
    Cow(j, true)
  }

  datatype Error =
    | IndexingIntoJson(key: string, j: Json)
    | InvalidFunctionArguments

  type Outcome = Result<Cow, Error>

  // Library text functions the evaluator rests on; nothing is assumed of them.
  datatype Library = Library(
    show: Json -> string,
    decimal: nat -> string,
    graphemes: string -> seq<string>,
    entryOrder: map<string, Json> -> seq<(string, Json)>
  )

  // What an expression is evaluated against: the (borrowed) data and the current `for_each` tuple, if any.
  datatype Scope = Scope(d: Json, forEach: Option<seq<Cow>>)

  // ---------- operators ----------

  predicate NumberLess(a: Option<real>, b: Option<real>) {
    a.Some? && b.Some? && a.value < b.value
  }

  predicate NumberAtMost(a: Option<real>, b: Option<real>) {
    a.Some? && b.Some? && a.value <= b.value
  }

  // The part before the decimal point.
  function Trunc(x: real): real {
    if x >= 0.0 then x.Floor as real else -((-x).Floor as real)
  }

  function Remainder(x: real, y: real): real
    requires y != 0.0
  {
    x - y * Trunc(x / y)
  }

  // None is no finite number: an operand is none, or the divisor is 0.
  function Calculate(o: InfixOperator, a: Option<real>, b: Option<real>): Option<real> {
    if a.None? || b.None? then None else CalculateReals(o, a.value, b.value)
  }

  function CalculateReals(o: InfixOperator, x: real, y: real): Option<real> {
    match o
    case Add => Some(x + y)
    case Subtract => Some(x - y)
    case Multiply => Some(x * y)
    case Divide => if y == 0.0 then None else Some(x / y)
    case Mod => if y == 0.0 then None else Some(Remainder(x, y))
    case _ => None
  }

  const EPSILON: real := 1.0 / 4503599627370496.0

  const U64_MAX: nat := 0xFFFF_FFFF_FFFF_FFFF

  // A cast to an unsigned integer: towards 0, and to the nearest bound if out of range.
  function ToUnsigned(x: real): nat {
    if x < 0.0 then 0 else if x.Floor > U64_MAX then U64_MAX else x.Floor
  }

  // `to_json_number`; what is no finite number becomes null.
  function ToJsonNumber(x: Option<real>): Json {
    match x
    case None => Null
    case Some(n) => Number(if n - Trunc(n) < EPSILON then Unsigned(ToUnsigned(n)) else Float(n))
  }

  // `&&` and `||` look at the right operand, and so at its error, only when the left one does not decide.
  function EvaluateInfix(o: InfixOperator, left: Json, right: Result<Json, Error>): Result<Json, Error> {
    match o
    case And => if BoolValue(left) then (var r :- right; Ok(Bool(BoolValue(r)))) else Ok(Bool(false))
    case Or => if BoolValue(left) then Ok(Bool(true)) else (var r :- right; Ok(Bool(BoolValue(r))))
    case Eq => var r :- right; Ok(Bool(left == r))
    case Ne => var r :- right; Ok(Bool(left != r))
    case Gt => var r :- right; Ok(Bool(NumberLess(F64Value(r), F64Value(left))))
    case Gte => var r :- right; Ok(Bool(NumberAtMost(F64Value(r), F64Value(left))))
    case Lt => var r :- right; Ok(Bool(NumberLess(F64Value(left), F64Value(r))))
    case Lte => var r :- right; Ok(Bool(NumberAtMost(F64Value(left), F64Value(r))))
    case _ => var r :- right; Ok(ToJsonNumber(Calculate(o, F64Value(left), F64Value(r))))
  }

  function JustValue(r: Outcome): Result<Json, Error> {
    match r
    case Ok(c) => Ok(c.v)
    case Err(e) => Err(e)
  }

  // An operator applied to two evaluated operands; an error on the left comes first.
  function ApplyInfix(o: InfixOperator, left: Outcome, right: Outcome): Outcome {
    var l :- left;
    var v :- EvaluateInfix(o, l.v, JustValue(right));
    Ok(Owned(v))
  }

  function ApplyNot(not: Option<bool>, r: Outcome): Outcome {
    match not
    case None => r
    case Some(negate) => var c :- r; Ok(Owned(Bool(BoolValue(c.v) != negate)))
  }

  // ---------- indexing ----------

  // One step into a JSON value: by text or by number.
  datatype IndexKey = TextKey(s: string) | NumberKey(n: nat)

  function IndexJson(lib: Library, c: Cow, key: IndexKey, noErr: bool): Outcome {
    if key.TextKey? && c.v.Object? then
      Ok(if key.s in c.v.fields then Cow(c.v.fields[key.s], c.owned) else Owned(Null))
    else if key.NumberKey? && c.v.Object? && !c.owned then
      Ok(if lib.decimal(key.n) in c.v.fields then Borrowed(c.v.fields[lib.decimal(key.n)]) else Owned(Null))
    else if key.NumberKey? && c.v.Array? then
      Ok(if key.n < |c.v.items| then Cow(c.v.items[key.n], c.owned) else Owned(Null))
    else if key == TextKey("length") && c.v.Array? then
      Ok(Owned(Number(Unsigned(|c.v.items|))))
    else if noErr then
      Ok(Owned(Null))
    else
      Err(IndexingIntoJson(if key.TextKey? then key.s else "[" + lib.decimal(key.n) + "]", c.v))
  }

  // ---------- library functions on JSON ----------

  function JsonToString(lib: Library, j: Json): string {
    if j.String? then j.s else lib.show(j)
  }

  function JoinStrings(parts: seq<string>, sep: string): string {
    if |parts| == 0 then ""
    else if |parts| == 1 then parts[0]
    else parts[0] + sep + JoinStrings(parts[1..], sep)
  }

  function JoinJson(lib: Library, sep: string, sep2: Option<string>, j: Json): Json {
    if j.Array? then
      String(JoinStrings(seq(|j.items|, i requires 0 <= i < |j.items| => JsonToString(lib, j.items[i])), sep))
    else if j.Object? && sep2.Some? then
      var entries := lib.entryOrder(j.fields);
      String(JoinStrings(
               seq(|entries|, i requires 0 <= i < |entries| =>
                 entries[i].0 + sep2.value + JsonToString(lib, entries[i].1)), sep))
    else
      String(JsonToString(lib, j))
  }

  // `count` graphemes of `g`, starting over at the end; none when there are none to repeat.
  function CycleTake(g: seq<string>, count: nat, at: nat): string
    requires g != [] ==> at < |g|
    decreases count
  {
    if count == 0 || g == [] then ""
    else g[at] + CycleTake(g, count - 1, if at + 1 == |g| then 0 else at + 1)
  }

  function PadJson(lib: Library, start: bool, minLength: nat, padding: string, j: Json): Json {
    var s := JsonToString(lib, j);
    var n := |lib.graphemes(s)|;
    var fill := CycleTake(lib.graphemes(padding), if n < minLength then minLength - n else 0, 0);
    String(if start then fill + s else s + fill)
  }

  // One round of the loop that finds the smallest (or largest) number: `left` is the best so far.
  function MinMaxStep(min: bool, left: Option<(real, Json)>, right: Json): Option<(real, Json)> {
    var r := F64Value(right);
    if left.None? then
      (if r.Some? then Some((r.value, right)) else None)
    else if r.None? then left
    else if (min && left.value.0 < r.value) || (!min && r.value < left.value.0) then left
    else Some((r.value, right))
  }

  function BestJson(left: Option<(real, Json)>): Json {
    if left.Some? then left.value.1 else Null
  }

  // ---------- evaluation ----------

  function EvalExpression(lib: Library, noErr: bool, e: Expression, sc: Scope): Outcome
    decreases e, 1
  {
    var left := EvalLhs(lib, noErr, e.lhs, sc);
    var v := if e.op.Some?
             then ApplyInfix(e.op.value.o, left, EvalExpression(lib, noErr, e.op.value.rhs, sc))
             else left;
    ApplyNot(e.not, v)
  }

  function EvalLhs(lib: Library, noErr: bool, l: Lhs, sc: Scope): Outcome
    decreases l, 1
  {
    match l
    case Nested(e) => EvalExpression(lib, noErr, e, sc)
    case Plain(v) => EvalValue(lib, noErr, v, sc)
  }

  function EvalValue(lib: Library, noErr: bool, v: Value, sc: Scope): Outcome
    decreases v, 1
  {
    match v
    case PathValue(p) => EvalPath(lib, noErr, p, sc)
    case Literal(j) => Ok(Borrowed(j))
    case Template(pieces) => var s :- EvalPieces(lib, noErr, pieces, sc); Ok(Owned(String(s)))
  }

  function EvalArgument(lib: Library, noErr: bool, a: Argument, sc: Scope): Outcome
    decreases a, 2
  {
    match a
    case ArgValue(v) => EvalValue(lib, noErr, v, sc)
    case ArgExpression(e) => EvalExpression(lib, noErr, e, sc)
  }

  function EvalPieces(lib: Library, noErr: bool, pieces: seq<Piece>, sc: Scope): Result<string, Error>
    decreases pieces, 1
  {
    if pieces == [] then Ok("")
    else
      var first :- EvalPiece(lib, noErr, pieces[0], sc);
      var others :- EvalPieces(lib, noErr, pieces[1..], sc);
      Ok(first + others)
  }

  function EvalPiece(lib: Library, noErr: bool, piece: Piece, sc: Scope): Result<string, Error>
    decreases piece, 1
  {
    match piece
    case Text(s) => Ok(s)
    case Hole(a) => var c :- EvalArgument(lib, noErr, a, sc); Ok(JsonToString(lib, c.v))
  }

  // A path is walked from its start; `for_each` names the current tuple when there is one.
  function EvalPath(lib: Library, noErr: bool, p: Path, sc: Scope): Outcome
    decreases p, 1
  {
    match p.start
    case Call(f) =>
      var c :- EvalCall(lib, noErr, f, sc);
      EvalSegments(lib, noErr, p.rest, c, sc.forEach)
    case Constant(j) =>
      EvalSegments(lib, noErr, p.rest, Borrowed(j), sc.forEach)
    case Ident(name) =>
      if name == "for_each" && sc.forEach.Some? then
        if p.rest == [] then Ok(Owned(Array(CowValues(sc.forEach.value))))
        else EvalSegments(lib, noErr, p.rest[1..], TupleElement(sc.forEach.value, p.rest[0]), sc.forEach)
      else
        var c :- IndexJson(lib, Borrowed(sc.d), TextKey(name), noErr);
        EvalSegments(lib, noErr, p.rest, c, sc.forEach)
  }

  function CowValues(t: seq<Cow>): seq<Json> {
    seq(|t|, i requires 0 <= i < |t| => t[i].v)
  }

  // `for_each[n]`; anything else after `for_each` selects nothing.
  function TupleElement(t: seq<Cow>, s: Segment): Cow {
    if s.Index? && s.n < |t| then t[s.n] else Owned(Null)
  }

  function EvalSegments(lib: Library, noErr: bool, rest: seq<Segment>, c: Cow, forEach: Option<seq<Cow>>): Outcome
    decreases rest, 1
  {
    if rest == [] then Ok(c)
    else
      var key :- EvalSegment(lib, noErr, rest[0], c, forEach);
      var next :- IndexJson(lib, c, key, noErr);
      EvalSegments(lib, noErr, rest[1..], next, forEach)
  }

  // A templated key is evaluated against the value being indexed, not against the original data.
  function EvalSegment(lib: Library, noErr: bool, s: Segment, c: Cow, forEach: Option<seq<Cow>>)
    : Result<IndexKey, Error>
    decreases s, 1
  {
    match s
    case Index(n) => Ok(NumberKey(n))
    case Key(text) => Ok(TextKey(text))
    case KeyTemplate(pieces) =>
      var text :- EvalPieces(lib, noErr, pieces, Scope(c.v, forEach));
      Ok(TextKey(text))
  }

  function EvalCall(lib: Library, noErr: bool, f: FunctionCall, sc: Scope): Outcome
    decreases f, 1
  {
    match f
    case If(first, second, third) =>
      var c :- EvalArgument(lib, noErr, first, sc);
      if BoolValue(c.v) then EvalArgument(lib, noErr, second, sc) else EvalArgument(lib, noErr, third, sc)
    case MinMax(min, args) =>
      var best :- EvalMinMax(lib, noErr, min, args, None, sc);
      Ok(Owned(BestJson(best)))
    case Join(arg, sep, sep2) =>
      var c :- EvalArgument(lib, noErr, arg, sc);
      Ok(Owned(JoinJson(lib, sep, sep2, c.v)))
    case Pad(start, arg, minLength, padding) =>
      var c :- EvalArgument(lib, noErr, arg, sc);
      Ok(Owned(PadJson(lib, start, minLength, padding, c.v)))
  }

  function EvalMinMax(lib: Library, noErr: bool, min: bool, args: seq<Argument>, left: Option<(real, Json)>, sc: Scope)
    : Result<Option<(real, Json)>, Error>
    decreases args, 1
  {
    if args == [] then Ok(left)
    else
      var c :- EvalArgument(lib, noErr, args[0], sc);
      EvalMinMax(lib, noErr, min, args[1..], MinMaxStep(min, left, c.v), sc)
  }
}
