/**
 Select expressions as they are written, and what they mean: a direct interpreter that folds nothing,
 compiles nothing and reads operators left to right by precedence climbing.
 */
module SourceSyntax {
  import opened Wrappers
  import opened JsonValues
  import opened Expressions
  import opened Precedence

  // `nots` exclamation marks, a value or a parenthesised expression, and what an infix operator joins to it.
  datatype Source = Source(nots: nat, atom: Atom, rest: Option<SourceRest>)

  datatype SourceRest = SourceRest(o: InfixOperator, s: Source)

  datatype Atom = ValueAtom(v: SourceValue) | Group(s: Source)

  datatype SourceValue =
    | NullLiteral
    | BoolLiteral(b: bool)
    | NumberLiteral(n: JsonNumber)
    | StringLiteral(t: seq<SourcePiece>)
    | PathSource(start: SourceStart, rest: seq<SourceSegment>)

  datatype SourcePiece = TextPiece(s: string) | HolePiece(e: Source)

  datatype SourceStart = Name(name: string) | CallSource(f: FunctionName, args: seq<Source>)

  datatype SourceSegment = IndexSegment(n: nat) | KeySegment(t: seq<SourcePiece>)

  datatype FunctionName = IfName | JoinName | MinName | MaxName | StartPadName | EndPadName

  // The libraries, the statically known variables, and whether failed indexing is Null instead of an error.
  datatype Config = Config(lib: Library, vars: map<string, Json>, noErr: bool)

  // ---------- meaning ----------

  // `n` exclamation marks in front of a value.
  function Negate(n: nat, r: Outcome): Outcome {
    if n == 0 then r
    else var c :- Negate(n - 1, r); Ok(Owned(Bool(!BoolValue(c.v))))
  }

  function Meaning(cfg: Config, s: Source, sc: Scope): Outcome
    decreases s, 2
  {
    Climb(OperandMeaning(cfg, s.nots, s.atom, sc), RestMeaning(cfg, s, sc), 0).0
  }

  function RestMeaning(cfg: Config, s: Source, sc: Scope): seq<Applied>
    decreases s, 1
  {
    match s.rest
    case None => []
    case Some(r) => [Applied(r.o, OperandMeaning(cfg, r.s.nots, r.s.atom, sc))] + RestMeaning(cfg, r.s, sc)
  }

  function OperandMeaning(cfg: Config, nots: nat, atom: Atom, sc: Scope): Outcome
    decreases atom, 1
  {
    Negate(nots, match atom
                 case ValueAtom(v) => ValueMeaning(cfg, v, sc)
                 case Group(s) => Meaning(cfg, s, sc))
  }

  function ValueMeaning(cfg: Config, v: SourceValue, sc: Scope): Outcome
    decreases v, 1
  {
    match v
    case NullLiteral => Ok(Borrowed(Null))
    case BoolLiteral(b) => Ok(Borrowed(Bool(b)))
    case NumberLiteral(n) => Ok(Borrowed(Number(n)))
    case StringLiteral(t) => var s :- TemplateMeaning(cfg, t, sc); Ok(Owned(String(s)))
    case PathSource(_, _) => PathMeaning(cfg, v, sc)
  }

  function TemplateMeaning(cfg: Config, t: seq<SourcePiece>, sc: Scope): Result<string, Error>
    decreases t, 1
  {
    if t == [] then Ok("")
    else
      var first :- PieceMeaning(cfg, t[0], sc);
      var others :- TemplateMeaning(cfg, t[1..], sc);
      Ok(first + others)
  }

  function PieceMeaning(cfg: Config, piece: SourcePiece, sc: Scope): Result<string, Error>
    decreases piece, 1
  {
    match piece
    case TextPiece(s) => Ok(s)
    case HolePiece(e) => var c :- Meaning(cfg, e, sc); Ok(JsonToString(cfg.lib, c.v))
  }

  function PathMeaning(cfg: Config, path: SourceValue, sc: Scope): Outcome
    requires path.PathSource?
    decreases path, 0
  {
    var rest := path.rest;
    match path.start
    case CallSource(f, args) =>
      var c :- CallMeaning(cfg, f, args, sc);
      SegmentsMeaning(cfg, rest, c, sc.forEach)
    case Name(name) =>
      if name in cfg.vars then SegmentsMeaning(cfg, rest, Borrowed(cfg.vars[name]), sc.forEach)
      else if name == "for_each" && sc.forEach.Some? then
        if rest == [] then Ok(Owned(Array(CowValues(sc.forEach.value))))
        else
          var t := sc.forEach.value;
          var c := if rest[0].IndexSegment? && rest[0].n < |t| then t[rest[0].n] else Owned(Null);
          SegmentsMeaning(cfg, rest[1..], c, sc.forEach)
      else
        var c :- IndexJson(cfg.lib, Borrowed(sc.d), TextKey(name), cfg.noErr);
        SegmentsMeaning(cfg, rest, c, sc.forEach)
  }

  function SegmentsMeaning(cfg: Config, rest: seq<SourceSegment>, c: Cow, forEach: Option<seq<Cow>>): Outcome
    decreases rest, 1
  {
    if rest == [] then Ok(c)
    else
      var key :- SegmentMeaning(cfg, rest[0], c, forEach);
      var next :- IndexJson(cfg.lib, c, key, cfg.noErr);
      SegmentsMeaning(cfg, rest[1..], next, forEach)
  }

  function SegmentMeaning(cfg: Config, s: SourceSegment, c: Cow, forEach: Option<seq<Cow>>): Result<IndexKey, Error>
    decreases s, 1
  {
    match s
    case IndexSegment(n) => Ok(NumberKey(n))
    case KeySegment(t) => var text :- TemplateMeaning(cfg, t, Scope(c.v, forEach)); Ok(TextKey(text))
  }

  // Separators and pad parameters have to come out as strings and an unsigned number.
  function CallMeaning(cfg: Config, f: FunctionName, args: seq<Source>, sc: Scope): Outcome
    decreases args, 1
  {
    match f
    case IfName =>
      if |args| != 3 then Err(InvalidFunctionArguments)
      else
        var c :- Meaning(cfg, args[0], sc);
        if BoolValue(c.v) then Meaning(cfg, args[1], sc) else Meaning(cfg, args[2], sc)
    case JoinName =>
      if |args| != 2 && |args| != 3 then Err(InvalidFunctionArguments)
      else
        var c :- Meaning(cfg, args[0], sc);
        var sep :- Meaning(cfg, args[1], sc);
        var sep2 :- if |args| == 3 then Meaning(cfg, args[2], sc) else Ok(Borrowed(String("")));
        if sep.v.String? && sep2.v.String? then
          Ok(Owned(JoinJson(cfg.lib, sep.v.s, if |args| == 3 then Some(sep2.v.s) else None, c.v)))
        else Err(InvalidFunctionArguments)
    case MinName => var best :- BestMeaning(cfg, true, args, None, sc); Ok(Owned(BestJson(best)))
    case MaxName => var best :- BestMeaning(cfg, false, args, None, sc); Ok(Owned(BestJson(best)))
    case StartPadName => PadMeaning(cfg, true, args, sc)
    case EndPadName => PadMeaning(cfg, false, args, sc)
  }

  function PadMeaning(cfg: Config, start: bool, args: seq<Source>, sc: Scope): Outcome
    decreases args, 0
  {
    if |args| != 3 then Err(InvalidFunctionArguments)
    else
      var c :- Meaning(cfg, args[0], sc);
      var n :- Meaning(cfg, args[1], sc);
      var padding :- Meaning(cfg, args[2], sc);
      if n.v.Number? && n.v.num.Unsigned? && padding.v.String? then
        Ok(Owned(PadJson(cfg.lib, start, n.v.num.n, padding.v.s, c.v)))
      else Err(InvalidFunctionArguments)
  }

  function BestMeaning(cfg: Config, min: bool, args: seq<Source>, left: Option<(real, Json)>, sc: Scope)
    : Result<Option<(real, Json)>, Error>
    decreases args, 0
  {
    if args == [] then Ok(left)
    else
      var c :- Meaning(cfg, args[0], sc);
      BestMeaning(cfg, min, args[1..], MinMaxStep(min, left, c.v), sc)
  }

  // ---------- where exclamation marks would be read as written, if they were handed over ----------

  // The flag `n` exclamation marks leave on an operand.
  function NotFlag(n: nat): Option<bool> {
    if n == 0 then None else Some(n % 2 == 1)
  }

  // The flag of a parenthesised expression: its own and that of the marks in front of it.
  function MergeNot(inner: Option<bool>, outer: Option<bool>): Option<bool> {
    if inner == Some(true) || outer == Some(true) then Some(true)
    else if inner == Some(false) || outer == Some(false) then Some(false)
    else None
  }

  // The flag an operand ends up with, and whether it is a lone value under all its parentheses.
  function OperandFlag(nots: nat, atom: Atom): Option<bool>
    decreases atom
  {
    match atom
    case ValueAtom(_) => NotFlag(nots)
    case Group(s) => MergeNot(if s.rest.None? then OperandFlag(s.nots, s.atom) else None, NotFlag(nots))
  }

  predicate IsLone(atom: Atom)
    decreases atom
  {
    match atom
    case ValueAtom(_) => true
    case Group(s) => s.rest.None? && IsLone(s.atom)
  }

  // Some marked lone operand is followed by an operator that binds tighter than the one before it.
  predicate MarksAbsorb(s: Source, before: nat) {
    s.rest.Some? && (
      || (OperandFlag(s.nots, s.atom).Some? && IsLone(s.atom) && before < Level(s.rest.value.o))
      || MarksAbsorb(s.rest.value.s, Level(s.rest.value.o)))
  }

  // No mark absorbs an operator and no odd number of marks meets another inside parentheses.
  predicate Clean(s: Source)
    decreases s, 2
  {
    !MarksAbsorb(s, 0) && CleanOperands(s)
  }

  predicate CleanOperands(s: Source)
    decreases s, 1
  {
    CleanOperand(s.nots, s.atom) && (s.rest.Some? ==> CleanOperands(s.rest.value.s))
  }

  predicate CleanOperand(nots: nat, atom: Atom)
    decreases atom, 1
  {
    match atom
    case ValueAtom(v) => CleanValue(v)
    case Group(s) =>
      && Clean(s)
      && !(nots % 2 == 1 && s.rest.None? && OperandFlag(s.nots, s.atom) == Some(true))
  }

  predicate CleanValue(v: SourceValue)
    decreases v, 1
  {
    match v
    case StringLiteral(t) => CleanTemplate(t)
    case PathSource(start, rest) => (start.CallSource? ==> CleanArguments(start.args)) && CleanSegments(rest)
    case _ => true
  }

  predicate CleanTemplate(t: seq<SourcePiece>)
    decreases t, 1
  {
    t != [] ==> CleanPiece(t[0]) && CleanTemplate(t[1..])
  }

  predicate CleanPiece(piece: SourcePiece)
    decreases piece, 1
  {
    piece.HolePiece? ==> Clean(piece.e)
  }

  predicate CleanArguments(args: seq<Source>)
    decreases args, 1
  {
    args != [] ==> Clean(args[0]) && CleanArguments(args[1..])
  }

  predicate CleanSegments(rest: seq<SourceSegment>)
    decreases rest, 1
  {
    rest != [] ==> CleanSegment(rest[0]) && CleanSegments(rest[1..])
  }

  predicate CleanSegment(s: SourceSegment)
    decreases s, 1
  {
    s.KeySegment? ==> CleanTemplate(s.t)
  }
}
