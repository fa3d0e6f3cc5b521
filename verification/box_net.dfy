/** The box-net generator: derives the symbol table from the five box
    parameters, evaluates the segment template against it, drops zero-length
    segments, sizes the canvas and routes each segment to the CUT or FOLD
    layer (generator.py). */
module BoxNet {
  import opened Outcomes
  import opened Seqs
  import opened Reals

  // ---------------------------------------------------------------------
  // Parameters and derived quantities (_derived_vars)
  // ---------------------------------------------------------------------

  /** Length, width, height, corner radius and material thickness, in mm. */
  datatype BoxParams = BoxParams(L: real, B: real, H: real, R: real, ep: real)

  /** Every local of the derivation, the five parameters included; this is
      the symbol table the template's formulas read. */
  datatype Derived = Derived(
    L: real, B: real, H: real, R: real, ep: real,
    H2: real, Ep: real, L2: real, B2: real, B3: real, V: real, L3: real,
    H3: real, R1: real, H1: real, B1: real, L1: real,
    V1: real, V2: real, V3: real, Pdp: real,
    P1x: real, P2x: real, P2y: real, P3x: real, P1y: real, P3y: real)

  /** The derivation: panel sizes, the placement pitch and the panel
      offsets. The contract states the closed forms the offsets reduce to and
      that P1y is the taller of the two panel stacks. */
  function DerivedVars(p: BoxParams): (d: Derived)
    ensures d.L == p.L && d.B == p.B && d.H == p.H && d.R == p.R && d.ep == p.ep
    ensures d.H2 == p.H && d.Ep == p.ep && d.R1 == p.R
    ensures d.V == p.ep - 0.45 && d.V1 == 12.0 && d.V2 == 3.0 && d.V3 == p.ep + 0.5
    ensures d.L2 == p.B + 2.0 * p.ep + 2.5 && d.B2 == p.L + 2.0 * p.ep + 2.5
    ensures d.B3 == d.B2 + 2.0 * p.ep + 1.0 && d.L3 == d.L2 + 2.0 * p.ep
    ensures d.H1 == d.H3 == p.H + p.ep
    ensures d.L1 == p.B + 2.0 * p.ep && d.B1 == p.L + 2.0 * p.ep + 1.0
    ensures d.Pdp == 30.0
    ensures d.P1x == p.R + 2.0 * p.ep
    ensures d.P2y == p.ep + 1.25
    ensures d.P2x == 2.0 * p.R + 2.0 * p.H + p.B + 6.0 * p.ep + 32.5
    ensures d.P3x == d.P2x + p.R + 2.0 * p.ep
    ensures d.P1y == Max(2.0 * d.R1 + 2.0 * d.H3 + d.B3 + d.Pdp,
                         2.0 * p.R + 2.0 * d.H1 + d.B1 + d.Pdp)
    ensures d.P3y == d.P1y + p.ep + 1.25
  {
    var L, B, H, R, ep := p.L, p.B, p.H, p.R, p.ep;
    var H2 := H;
    var Ep := ep;
    var L2 := B + 2.0 * Ep + 2.5;
    var B2 := L + 2.0 * Ep + 2.5;
    var B3 := B2 + 2.0 * Ep + 1.0;
    var V := Ep - 0.45;
    var L3 := L2 + 2.0 * Ep;
    var H3 := H2 + Ep;
    var R1 := R;
    var H1 := H + Ep;
    var B1 := L + 2.0 * Ep + 1.0;
    var L1 := B + 2.0 * Ep;
    var V1, V2, V3 := 12.0, 3.0, Ep + 0.5;
    var Pdp := 30.0;
    var P1x := R1 + H3 + L3 / 2.0 - (L2 / 2.0 + H2);
    var P2x := R1 + H3 + L3 + H3 + R1 + Pdp;
    var P2y := R1 + H3 + B3 / 2.0 - (B1 / 2.0 + H1 + R);
    var P3x := P2x + R + H1 + L1 / 2.0 - (H + B / 2.0);
    var P1y := if R1 + H3 + B3 / 2.0 > R + H1 + B1 / 2.0
               then R1 + H3 + B3 + H3 + R1 + Pdp
               else R + H1 + B1 + H1 + R + Pdp;
    var P3y := P1y + H2 + B2 / 2.0 - (L / 2.0 + H);
    Derived(L, B, H, R, ep, H2, Ep, L2, B2, B3, V, L3, H3, R1, H1, B1, L1,
            V1, V2, V3, Pdp, P1x, P2x, P2y, P3x, P1y, P3y)
  }

  /** For every thickness above -1.25 mm (so for every real material) the
      branch of the derivation takes the lid stack, and P1y has this closed
      form. */
  lemma LidStackIsTaller(p: BoxParams)
    requires p.ep > -1.25
    ensures var d := DerivedVars(p);
      d.R1 + d.H3 + d.B3 / 2.0 > p.R + d.H1 + d.B1 / 2.0 &&
      d.P1y == 2.0 * p.R + 2.0 * p.H + p.L + 6.0 * p.ep + 33.5
  {
  }

  /** The names of the derivation's locals, the five parameters included. */
  const DerivedNames: set<string> :=
    {"L", "B", "H", "R", "ep", "H2", "Ep", "L2", "B2", "B3", "V", "L3", "H3",
     "R1", "H1", "B1", "L1", "V1", "V2", "V3", "Pdp",
     "P1x", "P2x", "P2y", "P3x", "P1y", "P3y"}

  /** The dictionary returned by `locals()`: one entry per local. */
  function VarMap(d: Derived): (v: map<string, real>)
    ensures v.Keys == DerivedNames
  {
    map["L" := d.L, "B" := d.B, "H" := d.H, "R" := d.R, "ep" := d.ep,
        "H2" := d.H2, "Ep" := d.Ep, "L2" := d.L2, "B2" := d.B2,
        "B3" := d.B3, "V" := d.V, "L3" := d.L3, "H3" := d.H3,
        "R1" := d.R1, "H1" := d.H1, "B1" := d.B1, "L1" := d.L1,
        "V1" := d.V1, "V2" := d.V2, "V3" := d.V3, "Pdp" := d.Pdp,
        "P1x" := d.P1x, "P2x" := d.P2x, "P2y" := d.P2y, "P3x" := d.P3x,
        "P1y" := d.P1y, "P3y" := d.P3y]
  }

  // ---------------------------------------------------------------------
  // The segment template and its evaluation (_segment_list)
  // ---------------------------------------------------------------------

  /** The binary operators of the formulas. */
  datatype Op = Plus | Minus | Times | Over

  /** A coordinate formula of the generated template: arithmetic over the
      names of the symbol table. */
  datatype Expr =
    | Num(c: real)
    | Var(name: string)
    | Neg(e: Expr)
    | Bin(op: Op, a: Expr, b: Expr)

  /** A template coordinate: a literal number or a formula. */
  datatype Coord = Const(value: real) | Formula(expr: Expr)

  /** One template entry `(kind, x0, y0, x1, y1)`. */
  datatype SegmentSpec = SegmentSpec(kind: string, x0: Coord, y0: Coord, x1: Coord, y1: Coord)

  /** A resolved line from (x0, y0) to (x1, y1), in mm. */
  datatype Segment = Segment(kind: string, x0: real, y0: real, x1: real, y1: real)

  /** What the generator can raise: a formula naming a key the symbol
      table lacks (KeyError), a division by zero (ZeroDivisionError), or the
      maximum over no kept segment (ValueError). */
  datatype NetError = UnknownName(name: string) | DivisionByZero | EmptyDrawing

  /** The names a formula reads. */
  function Names(e: Expr): set<string> {
    match e
    case Num(_) => {}
    case Var(n) => {n}
    case Neg(a) => Names(a)
    case Bin(_, a, b) => Names(a) + Names(b)
  }

  /** One binary operation; Python raises ZeroDivisionError on a zero
      divisor. */
  function Apply(op: Op, x: real, y: real): (r: Result<real, NetError>)
    ensures r.Err? <==> op == Over && y == 0.0
    ensures r.Err? ==> r.error == DivisionByZero
  {
    match op
    case Plus => Ok(x + y)
    case Minus => Ok(x - y)
    case Times => Ok(x * y)
    case Over => if y == 0.0 then Err(DivisionByZero) else Ok(x / y)
  }

  /** Evaluation of a formula against the symbol table, left operand first.
      The only exceptions a formula raises are a missing key and a division
      by zero. */
  function Eval(e: Expr, v: map<string, real>): (r: Result<real, NetError>)
    ensures r.Err? ==> r.error.UnknownName? || r.error == DivisionByZero
  {
    match e
    case Num(c) => Ok(c)
    case Var(n) => if n in v then Ok(v[n]) else Err(UnknownName(n))
    case Neg(a) =>
      var x :- Eval(a, v);
      Ok(-x)
    case Bin(op, a, b) =>
      var x :- Eval(a, v);
      var y :- Eval(b, v);
      Apply(op, x, y)
  }

  /** A lookup failure always names a variable of the formula that the
      table lacks, and cannot happen when the table holds all of them. */
  lemma {:induction false} EvalFailsOnlyOnMissingNames(e: Expr, v: map<string, real>)
    ensures var r := Eval(e, v);
      r.Err? && r.error.UnknownName? ==> r.error.name in Names(e) && r.error.name !in v
    ensures Names(e) <= v.Keys ==> !(Eval(e, v).Err? && Eval(e, v).error.UnknownName?)
  {
    match e
    case Num(_) =>
    case Var(_) =>
    case Neg(a) =>
      EvalFailsOnlyOnMissingNames(a, v);
    case Bin(_, a, b) =>
      EvalFailsOnlyOnMissingNames(a, v);
      EvalFailsOnlyOnMissingNames(b, v);
  }

  /** A formula that reads only locals of the derivation never raises
      KeyError, whatever the box parameters. */
  lemma FormulaOverLocalsFindsItsNames(e: Expr, p: BoxParams)
    requires Names(e) <= DerivedNames
    ensures var r := Eval(e, VarMap(DerivedVars(p)));
      r.Err? ==> r.error == DivisionByZero
  {
    EvalFailsOnlyOnMissingNames(e, VarMap(DerivedVars(p)));
  }

  /** Two symbol tables that agree on every name of `names`. */
  ghost predicate AgreeOn(v: map<string, real>, w: map<string, real>, names: set<string>) {
    forall n :: n in names ==> (n in v <==> n in w) && (n in v ==> v[n] == w[n])
  }

  /** A formula's value depends only on the names it reads. */
  lemma {:induction false} EvalReadsOnlyItsNames(e: Expr, v: map<string, real>, w: map<string, real>)
    requires AgreeOn(v, w, Names(e))
    ensures Eval(e, v) == Eval(e, w)
  {
    match e
    case Num(_) =>
    case Var(_) =>
    case Neg(a) =>
      EvalReadsOnlyItsNames(a, v, w);
    case Bin(_, a, b) =>
      EvalReadsOnlyItsNames(a, v, w);
      EvalReadsOnlyItsNames(b, v, w);
  }

  /** A constant passes through unchanged, whatever the table; a formula is
      evaluated. */
  function EvalCoord(c: Coord, v: map<string, real>): (r: Result<real, NetError>)
    ensures c.Const? ==> r == Ok(c.value)
    ensures r.Err? ==> r.error.UnknownName? || r.error == DivisionByZero
  {
    match c
    case Const(x) => Ok(x)
    case Formula(e) => Eval(e, v)
  }

  /** One template entry resolved, coordinates in the order x0, y0, x1, y1. */
  function EvalSpec(s: SegmentSpec, v: map<string, real>): (r: Result<Segment, NetError>)
    ensures r.Ok? ==> r.value.kind == s.kind
  {
    var x0 :- EvalCoord(s.x0, v);
    var y0 :- EvalCoord(s.y0, v);
    var x1 :- EvalCoord(s.x1, v);
    var y1 :- EvalCoord(s.y1, v);
    Ok(Segment(s.kind, x0, y0, x1, y1))
  }

  /** The relative tolerance of `math.isclose`. */
  const RelTol: real := 0.000000001

  /** `math.isclose(a, b)` with its default tolerances (relative 1e-9,
      absolute 0). */
  predicate IsClose(a: real, b: real)
    ensures a == b ==> IsClose(a, b)
  {
    Abs(a - b) <= RelTol * Max(Abs(a), Abs(b))
  }

  /** isclose is reflexive and symmetric, and with no absolute tolerance
      only zero is close to zero: a tiny coordinate next to 0 is not
      absorbed. */
  lemma IsCloseFacts(a: real, b: real)
    ensures IsClose(a, a)
    ensures IsClose(a, b) == IsClose(b, a)
    ensures IsClose(a, 0.0) <==> a == 0.0
    ensures IsClose(a, b) && a != b ==> (a < 0.0 <==> b < 0.0) && a != 0.0 && b != 0.0
  {
  }

  /** A resolved segment survives unless both its x and its y endpoints are
      close. */
  predicate Kept(s: Segment)
    ensures s.x0 == s.x1 && s.y0 == s.y1 ==> !Kept(s)
  {
    !IsClose(s.x0, s.x1) || !IsClose(s.y0, s.y1)
  }

  /** The resolution of one entry against the symbol table `v`. */
  function Resolver(v: map<string, real>): SegmentSpec -> Result<Segment, NetError> {
    s => EvalSpec(s, v)
  }

  /** Every template entry resolved, in template order; the first entry
      that fails decides the error. */
  function EvalAll(t: seq<SegmentSpec>, v: map<string, real>): Result<seq<Segment>, NetError> {
    Traverse(Resolver(v), t)
  }

  /** What `_segment_list` returns: the resolved template without its
      zero-length segments. */
  function SegmentList(t: seq<SegmentSpec>, v: map<string, real>): (r: Result<seq<Segment>, NetError>)
    ensures r.Ok? ==> |r.value| <= |t|
  {
    var es :- EvalAll(t, v);
    Ok(Filter(Kept, es))
  }

  /** One step of the loop of `_segment_list`: resolving entry `i` either
      fails for the whole template or extends the resolved prefix. */
  lemma ResolveStep(t: seq<SegmentSpec>, v: map<string, real>, i: nat, resolved: seq<Segment>)
    requires i < |t| && EvalAll(t[..i], v) == Ok(resolved)
    ensures EvalSpec(t[i], v).Err? ==> SegmentList(t, v) == Err(EvalSpec(t[i], v).error)
    ensures EvalSpec(t[i], v).Ok? ==>
      EvalAll(t[..i + 1], v) == Ok(resolved + [EvalSpec(t[i], v).value])
  {
    assert t[..i + 1] == t[..i] + [t[i]];
    TraverseSnoc(Resolver(v), t[..i], t[i]);
    if EvalSpec(t[i], v).Err? {
      TraverseErrorPersists(Resolver(v), t, i + 1);
    }
  }

  /** The loop of `_segment_list`: resolve each entry and append it unless
      it has zero length. */
  method BuildSegmentList(t: seq<SegmentSpec>, v: map<string, real>) returns (r: Result<seq<Segment>, NetError>)
    ensures r == SegmentList(t, v)
  {
    var out: seq<Segment> := [];
    ghost var resolved: seq<Segment> := [];
    var i := 0;
    while i < |t|
      invariant 0 <= i <= |t|
      invariant EvalAll(t[..i], v) == Ok(resolved)
      invariant out == Filter(Kept, resolved)
    {
      var s := EvalSpec(t[i], v);
      ResolveStep(t, v, i, resolved);
      if s.Err? {
        return Err(s.error);
      }
      var seg := s.value;
      FilterSnoc(Kept, resolved, seg);
      resolved := resolved + [seg];
      if !IsClose(seg.x0, seg.x1) || !IsClose(seg.y0, seg.y1) {
        out := out + [seg];
      }
      i := i + 1;
    }
    assert t[..i] == t;
    return Ok(out);
  }

  /** The kept segments are resolved template entries, with their kinds,
      no more of them than entries, none with coinciding endpoints; and
      an entry is dropped exactly when both of its axes are close. */
  lemma SegmentListKeepsWhatIsNotDegenerate(t: seq<SegmentSpec>, v: map<string, real>)
    requires SegmentList(t, v).Ok?
    ensures var out := SegmentList(t, v).value;
      |out| <= |t| &&
      (forall s :: s in out ==> exists i :: 0 <= i < |t| && EvalSpec(t[i], v) == Ok(s) && s.kind == t[i].kind) &&
      (forall s :: s in out ==> !(s.x0 == s.x1 && s.y0 == s.y1)) &&
      (forall i :: 0 <= i < |t| ==>
         EvalSpec(t[i], v).Ok? && (EvalSpec(t[i], v).value in out <==> Kept(EvalSpec(t[i], v).value)))
  {
    var es := EvalAll(t, v).value;
    TraverseEntrywise(Resolver(v), t);
    FilterMembers(Kept, es);
    forall s | s in Filter(Kept, es)
      ensures exists i :: 0 <= i < |t| && EvalSpec(t[i], v) == Ok(s) && s.kind == t[i].kind
    {
      var i :| 0 <= i < |es| && es[i] == s;
      assert EvalSpec(t[i], v) == Ok(s);
    }
    forall s | s in Filter(Kept, es)
      ensures !(s.x0 == s.x1 && s.y0 == s.y1)
    {
      IsCloseFacts(s.x0, s.x1);
      IsCloseFacts(s.y0, s.y1);
    }
    forall i | 0 <= i < |t|
      ensures EvalSpec(t[i], v).Ok? && (EvalSpec(t[i], v).value in Filter(Kept, es) <==> Kept(EvalSpec(t[i], v).value))
    {
      assert EvalSpec(t[i], v) == Ok(es[i]);
      assert es[i] in es;
    }
  }

  /** Template order is kept: the segments of two consecutive template
      parts are those of the first part followed by those of the second. */
  lemma SegmentListConcat(a: seq<SegmentSpec>, b: seq<SegmentSpec>, v: map<string, real>)
    requires SegmentList(a, v).Ok? && SegmentList(b, v).Ok?
    ensures SegmentList(a + b, v) == Ok(SegmentList(a, v).value + SegmentList(b, v).value)
  {
    TraverseConcat(Resolver(v), a, b);
    FilterConcat(Kept, EvalAll(a, v).value, EvalAll(b, v).value);
  }

  predicate IsConstSpec(s: SegmentSpec) {
    s.x0.Const? && s.y0.Const? && s.x1.Const? && s.y1.Const?
  }

  function Literal(s: SegmentSpec): Segment
    requires IsConstSpec(s)
  {
    Segment(s.kind, s.x0.value, s.y0.value, s.x1.value, s.y1.value)
  }

  /** A template made of constants only resolves to its own numbers,
      whatever the symbol table holds. */
  lemma {:induction false} ConstantTemplatePassesThrough(t: seq<SegmentSpec>, v: map<string, real>)
    requires forall i :: 0 <= i < |t| ==> IsConstSpec(t[i])
    ensures EvalAll(t, v).Ok?
    ensures forall i :: 0 <= i < |t| ==> EvalAll(t, v).value[i] == Literal(t[i])
    decreases |t|
  {
    if t != [] {
      var t', last := t[..|t| - 1], t[|t| - 1];
      ConstantTemplatePassesThrough(t', v);
      assert t == t' + [last];
      TraverseSnoc(Resolver(v), t', last);
      assert Resolver(v)(last) == Ok(Literal(last));
    }
  }

  // ---------------------------------------------------------------------
  // Canvas and layers (svg_bytes_from_params)
  // ---------------------------------------------------------------------

  /** The whitespace added after the largest coordinate, in mm. */
  const Margin: real := 20.0

  datatype Axis = X | Y

  function Start(s: Segment, a: Axis): real {
    if a == X then s.x0 else s.y0
  }

  function End(s: Segment, a: Axis): real {
    if a == X then s.x1 else s.y1
  }

  /** The largest endpoint coordinate along an axis. */
  function MaxCoord(segs: seq<Segment>, a: Axis): (m: real)
    requires |segs| > 0
    ensures forall s :: s in segs ==> Start(s, a) <= m && End(s, a) <= m
    ensures exists s :: s in segs && (Start(s, a) == m || End(s, a) == m)
    decreases |segs|
  {
    var last := segs[|segs| - 1];
    if |segs| == 1 then Max(Start(last, a), End(last, a))
    else
      var m' := MaxCoord(segs[..|segs| - 1], a);
      assert forall s :: s in segs ==> s in segs[..|segs| - 1] || s == last;
      Max(m', Max(Start(last, a), End(last, a)))
  }

  /** Canvas width and height: the largest x and y plus the margin. It
      fails exactly when there is no segment, and every endpoint then lies
      at least the margin inside it, one of them exactly so on each axis. */
  function Canvas(segs: seq<Segment>): (r: Result<(real, real), NetError>)
    ensures r.Err? <==> segs == []
    ensures r.Err? ==> r.error == EmptyDrawing
    ensures r.Ok? ==> forall s :: s in segs ==>
      s.x0 <= r.value.0 - Margin && s.x1 <= r.value.0 - Margin &&
      s.y0 <= r.value.1 - Margin && s.y1 <= r.value.1 - Margin
    ensures r.Ok? ==> (exists s :: s in segs && (s.x0 == r.value.0 - Margin || s.x1 == r.value.0 - Margin)) &&
                      (exists s :: s in segs && (s.y0 == r.value.1 - Margin || s.y1 == r.value.1 - Margin))
  {
    if segs == [] then Err(EmptyDrawing)
    else
      var w := MaxCoord(segs, X) + Margin;
      var h := MaxCoord(segs, Y) + Margin;
      assert forall s :: s in segs ==> Start(s, X) == s.x0 && End(s, X) == s.x1 && Start(s, Y) == s.y0 && End(s, Y) == s.y1;
      Ok((w, h))
  }

  predicate IsCut(s: Segment) {
    s.kind == "CUT"
  }

  predicate IsFold(s: Segment) {
    !IsCut(s)
  }

  /** The layering loop: each segment goes to the CUT group when its kind
      is "CUT" and to the FOLD group otherwise, keeping its order. */
  method RouteLayers(segs: seq<Segment>) returns (cut: seq<Segment>, fold: seq<Segment>)
    ensures cut == Filter(IsCut, segs)
    ensures fold == Filter(IsFold, segs)
  {
    cut, fold := [], [];
    var i := 0;
    while i < |segs|
      invariant 0 <= i <= |segs|
      invariant cut == Filter(IsCut, segs[..i])
      invariant fold == Filter(IsFold, segs[..i])
    {
      assert segs[..i + 1][..i] == segs[..i];
      if segs[i].kind == "CUT" {
        cut := cut + [segs[i]];
      } else {
        fold := fold + [segs[i]];
      }
      i := i + 1;
    }
    assert segs[..i] == segs;
  }

  /** The drawing `svg_bytes_from_params` serialises: canvas size and the
      two layers. */
  datatype Drawing = Drawing(width: real, height: real, cut: seq<Segment>, fold: seq<Segment>)

  /** Canvas and layers for a list of kept segments. */
  function Layout(segs: seq<Segment>): (r: Result<Drawing, NetError>)
    ensures r.Err? <==> segs == []
  {
    var size :- Canvas(segs);
    Ok(Drawing(size.0, size.1, Filter(IsCut, segs), Filter(IsFold, segs)))
  }

  /** `svg_bytes_from_params` up to serialisation. When the template
      resolves but every segment has zero length, the maximum over the kept
      segments raises. */
  function DrawingOf(p: BoxParams, t: seq<SegmentSpec>): (r: Result<Drawing, NetError>)
    ensures SegmentList(t, VarMap(DerivedVars(p))) == Ok([]) ==> r == Err(EmptyDrawing)
  {
    var segs :- SegmentList(t, VarMap(DerivedVars(p)));
    Layout(segs)
  }

  /** The drawing holds every kept segment exactly once, CUT ones in the CUT
      layer and all others in the FOLD layer, and every endpoint lies at
      least the margin inside the canvas. It fails exactly when nothing is
      kept. */
  lemma LayoutPartitionsSegments(segs: seq<Segment>)
    ensures Layout(segs).Err? <==> segs == []
    ensures Layout(segs).Ok? ==>
      var dw := Layout(segs).value;
      multiset(dw.cut) + multiset(dw.fold) == multiset(segs) &&
      (forall s :: s in dw.cut ==> s.kind == "CUT") &&
      (forall s :: s in dw.fold ==> s.kind != "CUT") &&
      (forall s :: s in dw.cut + dw.fold ==>
         s.x0 <= dw.width - Margin && s.x1 <= dw.width - Margin &&
         s.y0 <= dw.height - Margin && s.y1 <= dw.height - Margin)
  {
    FilterPartition(IsCut, IsFold, segs);
    FilterMembers(IsCut, segs);
    FilterMembers(IsFold, segs);
    if segs != [] {
      var dw := Layout(segs).value;
      forall s | s in dw.cut + dw.fold
        ensures s in segs
      {
      }
    }
  }

  /** `svg_bytes_from_params` up to serialisation. */
  method SvgFromParams(p: BoxParams, t: seq<SegmentSpec>) returns (r: Result<Drawing, NetError>)
    ensures r == DrawingOf(p, t)
  {
    var v := VarMap(DerivedVars(p));
    var listed := BuildSegmentList(t, v);
    if listed.Err? {
      return Err(listed.error);
    }
    var segs := listed.value;
    var size := Canvas(segs);
    if size.Err? {
      return Err(size.error);
    }
    var cut, fold := RouteLayers(segs);
    return Ok(Drawing(size.value.0, size.value.1, cut, fold));
  }
}
