/**
 Exclamation marks. The grammar makes them a silent rule, so what it hands over of a written expression is
 the expression without them, in calls, templates and keys too.
 */
module Marks {
  import opened Wrappers
  import opened SourceSyntax

  // ---------- what is handed over ----------

  function Bare(s: Source): Source
    decreases s, 1
  {
    Source(0, BareAtom(s.atom), match s.rest
                                case None => None
                                case Some(r) => Some(SourceRest(r.o, Bare(r.s))))
  }

  function BareAtom(atom: Atom): Atom
    decreases atom, 1
  {
    match atom
    case ValueAtom(v) => ValueAtom(BareValue(v))
    case Group(s) => Group(Bare(s))
  }

  function BareValue(v: SourceValue): SourceValue
    decreases v, 1
  {
    match v
    case StringLiteral(t) => StringLiteral(BareTemplate(t))
    case PathSource(start, rest) => PathSource(BareStart(start), BareSegments(rest))
    case _ => v
  }

  function BareStart(start: SourceStart): SourceStart
    decreases start, 1
  {
    match start
    case Name(_) => start
    case CallSource(f, args) => CallSource(f, BareArguments(args))
  }

  function BareTemplate(t: seq<SourcePiece>): (b: seq<SourcePiece>)
    ensures |b| == |t|
    decreases t, 1
  {
    if t == [] then [] else [BarePiece(t[0])] + BareTemplate(t[1..])
  }

  function BarePiece(piece: SourcePiece): SourcePiece
    decreases piece, 1
  {
    match piece
    case TextPiece(_) => piece
    case HolePiece(e) => HolePiece(Bare(e))
  }

  function BareArguments(args: seq<Source>): (b: seq<Source>)
    ensures |b| == |args|
    decreases args, 1
  {
    if args == [] then [] else [Bare(args[0])] + BareArguments(args[1..])
  }

  function BareSegments(rest: seq<SourceSegment>): (b: seq<SourceSegment>)
    ensures |b| == |rest|
    decreases rest, 1
  {
    if rest == [] then [] else [BareSegment(rest[0])] + BareSegments(rest[1..])
  }

  function BareSegment(s: SourceSegment): SourceSegment
    decreases s, 1
  {
    match s
    case IndexSegment(_) => s
    case KeySegment(t) => KeySegment(BareTemplate(t))
  }

  // ---------- expressions without marks ----------

  predicate Unmarked(s: Source)
    decreases s, 1
  {
    UnmarkedOperand(s.nots, s.atom) && (s.rest.Some? ==> Unmarked(s.rest.value.s))
  }

  predicate UnmarkedOperand(nots: nat, atom: Atom)
    decreases atom, 1
  {
    nots == 0 && (match atom
                  case ValueAtom(v) => UnmarkedValue(v)
                  case Group(s) => Unmarked(s))
  }

  predicate UnmarkedValue(v: SourceValue)
    decreases v, 1
  {
    match v
    case StringLiteral(t) => UnmarkedTemplate(t)
    case PathSource(start, rest) => (start.CallSource? ==> UnmarkedArguments(start.args)) && UnmarkedSegments(rest)
    case _ => true
  }

  predicate UnmarkedTemplate(t: seq<SourcePiece>)
    decreases t, 1
  {
    t != [] ==> UnmarkedPiece(t[0]) && UnmarkedTemplate(t[1..])
  }

  predicate UnmarkedPiece(piece: SourcePiece)
    decreases piece, 1
  {
    piece.HolePiece? ==> Unmarked(piece.e)
  }

  predicate UnmarkedArguments(args: seq<Source>)
    decreases args, 1
  {
    args != [] ==> Unmarked(args[0]) && UnmarkedArguments(args[1..])
  }

  predicate UnmarkedSegments(rest: seq<SourceSegment>)
    decreases rest, 1
  {
    rest != [] ==> UnmarkedSegment(rest[0]) && UnmarkedSegments(rest[1..])
  }

  predicate UnmarkedSegment(s: SourceSegment)
    decreases s, 1
  {
    s.KeySegment? ==> UnmarkedTemplate(s.t)
  }

  // ---------- what is handed over is unmarked, and an unmarked expression is handed over as it is ----------

  lemma {:induction false} BareIsUnmarked(s: Source)
    ensures Unmarked(Bare(s))
    ensures Bare(s) == s <==> Unmarked(s)
    decreases s, 1
  {
    BareAtomIsUnmarked(s.atom);
    if s.rest.Some? {
      BareIsUnmarked(s.rest.value.s);
    }
  }

  lemma {:induction false} BareAtomIsUnmarked(atom: Atom)
    ensures UnmarkedOperand(0, BareAtom(atom))
    ensures BareAtom(atom) == atom <==> UnmarkedOperand(0, atom)
    decreases atom, 1
  {
    match atom
    case ValueAtom(v) => BareValueIsUnmarked(v);
    case Group(s) => BareIsUnmarked(s);
  }

  lemma {:induction false} BareValueIsUnmarked(v: SourceValue)
    ensures UnmarkedValue(BareValue(v))
    ensures BareValue(v) == v <==> UnmarkedValue(v)
    decreases v, 1
  {
    match v
    case StringLiteral(t) => BareTemplateIsUnmarked(t);
    case PathSource(start, rest) =>
      if start.CallSource? {
        BareArgumentsAreUnmarked(start.args);
      }
      BareSegmentsAreUnmarked(rest);
    case _ =>
  }

  lemma {:induction false} BareTemplateIsUnmarked(t: seq<SourcePiece>)
    ensures UnmarkedTemplate(BareTemplate(t))
    ensures BareTemplate(t) == t <==> UnmarkedTemplate(t)
    decreases t, 1
  {
    if t != [] {
      BarePieceIsUnmarked(t[0]);
      BareTemplateIsUnmarked(t[1..]);
      SameParts(t, BareTemplate(t));
    }
  }

  lemma {:induction false} BarePieceIsUnmarked(piece: SourcePiece)
    ensures UnmarkedPiece(BarePiece(piece))
    ensures BarePiece(piece) == piece <==> UnmarkedPiece(piece)
    decreases piece, 1
  {
    if piece.HolePiece? {
      BareIsUnmarked(piece.e);
    }
  }

  lemma {:induction false} BareArgumentsAreUnmarked(args: seq<Source>)
    ensures UnmarkedArguments(BareArguments(args))
    ensures BareArguments(args) == args <==> UnmarkedArguments(args)
    decreases args, 1
  {
    if args != [] {
      BareIsUnmarked(args[0]);
      BareArgumentsAreUnmarked(args[1..]);
      SameParts(args, BareArguments(args));
    }
  }

  lemma {:induction false} BareSegmentsAreUnmarked(rest: seq<SourceSegment>)
    ensures UnmarkedSegments(BareSegments(rest))
    ensures BareSegments(rest) == rest <==> UnmarkedSegments(rest)
    decreases rest, 1
  {
    if rest != [] {
      BareSegmentIsUnmarked(rest[0]);
      BareSegmentsAreUnmarked(rest[1..]);
      SameParts(rest, BareSegments(rest));
    }
  }

  lemma {:induction false} BareSegmentIsUnmarked(s: SourceSegment)
    ensures UnmarkedSegment(BareSegment(s))
    ensures BareSegment(s) == s <==> UnmarkedSegment(s)
    decreases s, 1
  {
    if s.KeySegment? {
      BareTemplateIsUnmarked(s.t);
    }
  }

  lemma SameParts<T>(a: seq<T>, b: seq<T>)
    requires a != [] && b != []
    ensures a == b <==> a[0] == b[0] && a[1..] == b[1..]
  {
    assert a == [a[0]] + a[1..] && b == [b[0]] + b[1..];
  }

  // ---------- nothing but the marks is lost ----------

  // The same expression, however many marks stand where.
  predicate SameButMarks(a: Source, b: Source)
    decreases a, 1
  {
    SameAtom(a.atom, b.atom) && (
      match (a.rest, b.rest)
      case (None, None) => true
      case (Some(r), Some(q)) => r.o == q.o && SameButMarks(r.s, q.s)
      case _ => false)
  }

  predicate SameAtom(a: Atom, b: Atom)
    decreases a, 1
  {
    match (a, b)
    case (ValueAtom(v), ValueAtom(w)) => SameValue(v, w)
    case (Group(s), Group(q)) => SameButMarks(s, q)
    case _ => false
  }

  predicate SameValue(v: SourceValue, w: SourceValue)
    decreases v, 1
  {
    match (v, w)
    case (StringLiteral(t), StringLiteral(u)) => SameTemplate(t, u)
    case (PathSource(a, rest), PathSource(b, others)) => SameStart(a, b) && SameSegments(rest, others)
    case _ => v == w && !v.StringLiteral? && !v.PathSource?
  }

  predicate SameStart(a: SourceStart, b: SourceStart)
    decreases a, 1
  {
    match (a, b)
    case (CallSource(f, args), CallSource(g, others)) => f == g && SameArguments(args, others)
    case _ => a == b && a.Name?
  }

  predicate SameTemplate(t: seq<SourcePiece>, u: seq<SourcePiece>)
    decreases t, 1
  {
    |t| == |u| && (t != [] ==> SamePiece(t[0], u[0]) && SameTemplate(t[1..], u[1..]))
  }

  predicate SamePiece(a: SourcePiece, b: SourcePiece)
    decreases a, 1
  {
    match (a, b)
    case (HolePiece(e), HolePiece(f)) => SameButMarks(e, f)
    case _ => a == b && a.TextPiece?
  }

  predicate SameArguments(a: seq<Source>, b: seq<Source>)
    decreases a, 1
  {
    |a| == |b| && (a != [] ==> SameButMarks(a[0], b[0]) && SameArguments(a[1..], b[1..]))
  }

  predicate SameSegments(a: seq<SourceSegment>, b: seq<SourceSegment>)
    decreases a, 1
  {
    |a| == |b| && (a != [] ==> SameSegment(a[0], b[0]) && SameSegments(a[1..], b[1..]))
  }

  predicate SameSegment(a: SourceSegment, b: SourceSegment)
    decreases a, 1
  {
    match (a, b)
    case (KeySegment(t), KeySegment(u)) => SameTemplate(t, u)
    case _ => a == b && a.IndexSegment?
  }

  // Main result: what is handed over is what was written but for its marks.
  lemma {:induction false} OnlyMarksAreLost(s: Source)
    ensures SameButMarks(s, Bare(s))
    decreases s, 1
  {
    AtomKept(s.atom);
    if s.rest.Some? {
      OnlyMarksAreLost(s.rest.value.s);
    }
  }

  lemma {:induction false} AtomKept(atom: Atom)
    ensures SameAtom(atom, BareAtom(atom))
    decreases atom, 1
  {
    match atom
    case ValueAtom(v) => ValueKept(v);
    case Group(s) => OnlyMarksAreLost(s);
  }

  lemma {:induction false} ValueKept(v: SourceValue)
    ensures SameValue(v, BareValue(v))
    decreases v, 1
  {
    match v
    case StringLiteral(t) => TemplateKept(t);
    case PathSource(start, rest) =>
      if start.CallSource? {
        ArgumentsKept(start.args);
      }
      SegmentsKept(rest);
    case _ =>
  }

  lemma {:induction false} TemplateKept(t: seq<SourcePiece>)
    ensures SameTemplate(t, BareTemplate(t))
    decreases t, 1
  {
    if t != [] {
      if t[0].HolePiece? {
        HoleKept(t[0]);
      }
      TemplateKept(t[1..]);
    }
  }

  lemma {:induction false} HoleKept(piece: SourcePiece)
    requires piece.HolePiece?
    ensures SamePiece(piece, BarePiece(piece))
    decreases piece, 1
  {
    OnlyMarksAreLost(piece.e);
  }

  lemma {:induction false} ArgumentsKept(args: seq<Source>)
    ensures SameArguments(args, BareArguments(args))
    decreases args, 1
  {
    if args != [] {
      OnlyMarksAreLost(args[0]);
      ArgumentsKept(args[1..]);
    }
  }

  lemma {:induction false} SegmentsKept(rest: seq<SourceSegment>)
    ensures SameSegments(rest, BareSegments(rest))
    decreases rest, 1
  {
    if rest != [] {
      SegmentKept(rest[0]);
      SegmentsKept(rest[1..]);
    }
  }

  lemma {:induction false} SegmentKept(s: SourceSegment)
    ensures SameSegment(s, BareSegment(s))
    decreases s, 1
  {
    if s.KeySegment? {
      TemplateKept(s.t);
    }
  }
}
