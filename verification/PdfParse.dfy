/** The content-stream state machine: from a page's drawing operations to the objects
    the matcher compares. */
module PdfParse {
  import opened Wrappers
  import opened PageObjects
  import opened Rounding

  // ------------------------------------------------------------------ matrices

  datatype Matrix = Matrix(a: real, b: real, c: real, d: real, e: real, f: real)

  const IDENTITY := Matrix(1.0, 0.0, 0.0, 1.0, 0.0, 0.0)

  function Mul(m: Matrix, n: Matrix): Matrix {
    Matrix(m.a * n.a + m.b * n.c, m.a * n.b + m.b * n.d,
           m.c * n.a + m.d * n.c, m.c * n.b + m.d * n.d,
           m.e * n.a + m.f * n.c + n.e, m.e * n.b + m.f * n.d + n.f)
  }

  function Apply(m: Matrix, p: Point): Point {
    Point(m.a * p.x + m.c * p.y + m.e, m.b * p.x + m.d * p.y + m.f)
  }

  function Translation(tx: real, ty: real): Matrix { Matrix(1.0, 0.0, 0.0, 1.0, tx, ty) }

  // -------------------------------------------------------------------- stream

  // An operand, read as a number where it can be, and as text.
  datatype Operand = Operand(number: Option<real>, text: string)

  // One drawing operation. `shown` is the string a text operator draws and `image`
  // the content of an inline image, both as decoded by the tokeniser.
  datatype Operation = Operation(op: string, operands: seq<Operand>, shown: string, image: (seq<int>, int, int))

  // What the page supplies besides its operations: the faces behind the font
  // resources, and the length of a vector.
  datatype Env = Env(baseFonts: map<string, string>, hypot: (real, real) -> real)

  function Num(v: Operand, otherwise: real): real {
    if v.number.Some? then v.number.value else otherwise
  }

  function Nums(operands: seq<Operand>, k: nat): (r: seq<real>)
    requires k <= |operands|
    ensures |r| == k
  {
    seq(k, i requires 0 <= i < k => Num(operands[i], 0.0))
  }

  function MatrixOf(operands: seq<Operand>): Matrix
    requires |operands| >= 6
  {
    var v := Nums(operands, 6);
    Matrix(v[0], v[1], v[2], v[3], v[4], v[5])
  }

  // The points of a curve operator: its operands two by two, an odd one ignored.
  function CurvePoints(operands: seq<Operand>): (p: seq<Point>)
    ensures |p| == |operands| / 2
  {
    seq(|operands| / 2, k requires 0 <= k < |operands| / 2 =>
      Point(Num(operands[2 * k], 0.0), Num(operands[2 * k + 1], 0.0)))
  }

  function ColourOf(operands: seq<Operand>): Colour {
    seq(|operands|, k requires 0 <= k < |operands| => RoundHalfEven(Num(operands[k], 0.0) * 1000.0))
  }

  function WithoutSlashes(s: string): string {
    if s != "" && s[0] == '/' then WithoutSlashes(s[1..]) else s
  }

  // Drops the six-letter tag a producer puts before the name of a subset font.
  function FontFace(font: string): string {
    if |font| >= 7 && (forall k :: 0 <= k < 6 ==> 'A' <= font[k] <= 'Z') && font[6] == '+' then font[7..] else font
  }

  // --------------------------------------------------------------------- state

  datatype GState = GState(
    ctm: Matrix,
    lineWidth: real,
    fill: Colour,
    stroke: Colour,
    font: string,
    size: real,
    tm: Matrix,
    tlm: Matrix,
    leading: real)

  const INITIAL := GState(IDENTITY, 1.0, [], [], "", 0.0, IDENTITY, IDENTITY, 0.0)

  datatype Walk = Walk(
    gs: GState,
    stack: seq<GState>,
    current: seq<Point>,
    currentOps: seq<string>,
    objects: seq<PageObject>,
    unknownOps: seq<string>,
    hasRaster: bool)

  const START := Walk(INITIAL, [], [], [], [], [], false)

  function MapPoints(m: Matrix, p: seq<Point>): (r: seq<Point>)
    ensures |r| == |p| && forall k :: 0 <= k < |p| ==> r[k] == Apply(m, p[k])
  {
    seq(|p|, k requires 0 <= k < |p| => Apply(m, p[k]))
  }

  const GRID := 0.5

  function SnapPoint(p: Point): Point { Point(Snap(p.x, GRID), Snap(p.y, GRID)) }

  function SnapPoints(p: seq<Point>): (r: seq<Point>)
    ensures |r| == |p| && forall k :: 0 <= k < |p| ==> r[k] == SnapPoint(p[k])
  {
    seq(|p|, k requires 0 <= k < |p| => SnapPoint(p[k]))
  }

  // The points made relative to the first, which is what leaves the position out.
  function Relative(p: seq<Point>): (r: seq<Point>)
    requires p != []
    ensures |r| == |p| && forall k :: 0 <= k < |p| ==> r[k] == SnapPoint(Point(p[k].x - p[0].x, p[k].y - p[0].y))
  {
    seq(|p|, k requires 0 <= k < |p| => SnapPoint(Point(p[k].x - p[0].x, p[k].y - p[0].y)))
  }

  function Rectangle(x: real, y: real, w: real, h: real): seq<Point> {
    [Point(x, y), Point(x + w, y), Point(x + w, y + h), Point(x, y + h)]
  }

  // The next line: the line matrix moved by an offset, and the text matrix with it.
  function MoveText(gs: GState, tx: real, ty: real): GState {
    var tlm := Mul(Translation(tx, ty), gs.tlm);
    gs.(tlm := tlm, tm := tlm)
  }

  // The font size as the text matrix scales it.
  function ShownSize(env: Env, size: real, tm: Matrix): real {
    var length := env.hypot(tm.a, tm.b);
    size * (if length == 0.0 then 1.0 else length)
  }

  function TextObject(env: Env, gs: GState, s: string, op: string, index: nat): PageObject {
    var size := ShownSize(env, gs.size, gs.tm);
    PageObject(TextSignature(FontFace(gs.font), Snap(size, 0.5), s), SnapPoint(Apply(Mul(gs.tm, gs.ctm), ORIGIN)),
               TextStyle(gs.fill, Snap(size, 0.5)), [], [op], index)
  }

  function PathObject(gs: GState, current: seq<Point>, ops: seq<string>, op: string, index: nat): PageObject
    requires current != []
  {
    PageObject(PathSignature(ops + [op], Relative(current)), SnapPoint(current[0]),
               PathStyle(op, Snap(gs.lineWidth, 0.1), gs.fill, gs.stroke), SnapPoints(current), ops + [op], index)
  }

  function ImageObject(image: (seq<int>, int, int), index: nat): PageObject {
    PageObject(ImageSignature(image.1, image.2, image.0), ORIGIN, InlineStyle(image.1, image.2), [], ["BI"], index)
  }

  function XObject(name: string, index: nat): PageObject {
    PageObject(XObjectSignature(name), ORIGIN, XObjectStyle(name), [], ["Do"], index)
  }

  // ---------------------------------------------------------------- vocabulary

  predicate ShowsText(op: string) { op in ["Tj", "TJ", "'", "\""] }

  predicate StartsNextLine(op: string) { op in ["'", "\""] }

  predicate Curves(op: string) { op in ["c", "v", "y"] }

  predicate Paints(op: string) { op in ["S", "s", "f", "F", "f*", "B", "B*", "b", "b*", "n"] }

  predicate DrawsImage(op: string) { op in ["INLINE IMAGE", "BI", "Do"] }

  predicate Benign(op: string) {
    || op in ["BT", "ET", "q", "Q", "cm", "w", "Tf", "Td", "TD", "Tm", "T*", "TL"]
    || op in ["g", "G", "rg", "RG", "k", "K", "cs", "CS", "sc", "SC", "scn", "SCN"]
    || op in ["gs", "J", "j", "M", "d", "ri", "i", "W", "W*", "Tc", "Tw", "Tz", "Ts", "Tr"]
    || op in ["BI", "ID", "EI", "INLINE IMAGE", "Do", "BMC", "BDC", "EMC", "MP", "DP", "sh"]
  }

  // ---------------------------------------------------------------------- steps

  // Operators that change the graphics or text state and nothing else.
  predicate SetsState(o: Operation) {
    || (o.op == "cm" && |o.operands| >= 6)
    || (o.op == "w" && |o.operands| >= 1)
    || o.op in ["g", "rg", "k", "G", "RG", "K", "BT", "T*"]
    || (o.op == "Tf" && |o.operands| >= 2)
    || (o.op == "TL" && |o.operands| >= 1)
    || (o.op in ["Td", "TD"] && |o.operands| >= 2)
    || (o.op == "Tm" && |o.operands| >= 6)
  }

  function SetState(env: Env, gs: GState, o: Operation): GState
    requires SetsState(o)
  {
    if o.op == "cm" then gs.(ctm := Mul(MatrixOf(o.operands), gs.ctm))
    else if o.op == "w" then gs.(lineWidth := Num(o.operands[0], 1.0))
    else if o.op in ["g", "rg", "k"] then gs.(fill := ColourOf(o.operands))
    else if o.op in ["G", "RG", "K"] then gs.(stroke := ColourOf(o.operands))
    else if o.op == "BT" then gs.(tm := IDENTITY, tlm := IDENTITY)
    else if o.op == "Tf" then
      var name := WithoutSlashes(o.operands[0].text);
      gs.(font := if name in env.baseFonts then env.baseFonts[name] else name, size := Num(o.operands[1], 0.0))
    else if o.op == "TL" then gs.(leading := Num(o.operands[0], 0.0))
    else if o.op == "Tm" then gs.(tm := MatrixOf(o.operands), tlm := MatrixOf(o.operands))
    else if o.op == "T*" then MoveText(gs, 0.0, -gs.leading)
    else
      var tx, ty := Num(o.operands[0], 0.0), Num(o.operands[1], 0.0);
      MoveText(if o.op == "TD" then gs.(leading := -ty) else gs, tx, ty)
  }

  function ShowText(env: Env, w: Walk, o: Operation): Walk {
    var w' := if o.shown == "" then w
              else w.(objects := w.objects + [TextObject(env, w.gs, o.shown, o.op, |w.objects|)]);
    if StartsNextLine(o.op) then w'.(gs := MoveText(w.gs, 0.0, -w.gs.leading)) else w'
  }

  predicate BuildsPath(o: Operation) {
    || (o.op == "re" && |o.operands| >= 4)
    || (o.op in ["m", "l"] && |o.operands| >= 2)
    || Curves(o.op)
    || o.op == "h"
  }

  // The points a construction operator adds, in user space.
  function PathPoints(o: Operation): seq<Point>
    requires BuildsPath(o)
  {
    if o.op == "re" then
      var v := Nums(o.operands, 4);
      Rectangle(v[0], v[1], v[2], v[3])
    else if o.op in ["m", "l"] then [Point(Num(o.operands[0], 0.0), Num(o.operands[1], 0.0))]
    else if o.op == "h" then []
    else CurvePoints(o.operands)
  }

  function BuildPath(w: Walk, o: Operation): Walk
    requires BuildsPath(o)
  {
    w.(current := w.current + MapPoints(w.gs.ctm, PathPoints(o)), currentOps := w.currentOps + [o.op])
  }

  function PaintPath(w: Walk, op: string): Walk {
    var objects := if w.current == [] then w.objects
                   else w.objects + [PathObject(w.gs, w.current, w.currentOps, op, |w.objects|)];
    w.(objects := objects, current := [], currentOps := [])
  }

  function ImageOf(o: Operation, index: nat): PageObject {
    if o.op == "Do" then XObject(if o.operands == [] then "" else o.operands[0].text, index)
    else ImageObject(o.image, index)
  }

  function DrawImage(w: Walk, o: Operation): Walk {
    w.(objects := w.objects + [ImageOf(o, |w.objects|)], hasRaster := true)
  }

  datatype OpKind = Save | Restore | State | Text | Build | Paint | Image | Unknown | Ignored

  // The first group an operation belongs to; one without the operands it needs
  // falls through to the last two.
  function KindOf(o: Operation): (kind: OpKind)
    ensures kind == State ==> SetsState(o)
    ensures kind == Build ==> BuildsPath(o)
    ensures kind == Paint ==> Paints(o.op)
  {
    if o.op == "q" then Save
    else if o.op == "Q" then Restore
    else if SetsState(o) then State
    else if ShowsText(o.op) then Text
    else if BuildsPath(o) then Build
    else if Paints(o.op) then Paint
    else if DrawsImage(o.op) then Image
    else if Benign(o.op) then Ignored
    else Unknown
  }

  function Step(env: Env, w: Walk, o: Operation): Walk {
    match KindOf(o)
    case Save => w.(stack := w.stack + [w.gs])
    case Restore =>
      if w.stack == [] then w.(gs := INITIAL)
      else w.(gs := w.stack[|w.stack| - 1], stack := w.stack[..|w.stack| - 1])
    case State => w.(gs := SetState(env, w.gs, o))
    case Text => ShowText(env, w, o)
    case Build => BuildPath(w, o)
    case Paint => PaintPath(w, o.op)
    case Image => DrawImage(w, o)
    case Unknown => w.(unknownOps := w.unknownOps + [o.op])
    case Ignored => w
  }

  function Run(env: Env, w: Walk, ops: seq<Operation>): Walk {
    if ops == [] then w else Step(env, Run(env, w, ops[..|ops| - 1]), ops[|ops| - 1])
  }

  function Parsed(env: Env, ops: seq<Operation>): PageParse {
    var w := Run(env, START, ops);
    PageParse(w.objects, w.unknownOps, w.hasRaster)
  }

  // The walk itself: one pass over the operations, updating the state in place.
  method ParsePage(env: Env, ops: seq<Operation>) returns (page: PageParse)
    ensures page == Parsed(env, ops)
  {
    var gs := INITIAL;
    var stack: seq<GState> := [];
    var current: seq<Point>, currentOps: seq<string> := [], [];
    var objects: seq<PageObject>, unknownOps: seq<string>, hasRaster := [], [], false;
    for k := 0 to |ops|
      invariant Walk(gs, stack, current, currentOps, objects, unknownOps, hasRaster) == Run(env, START, ops[..k])
    {
      assert ops[..k + 1][..k] == ops[..k];
      var o := ops[k];
      match KindOf(o) {
        case Save =>
          stack := stack + [gs];
        case Restore =>
          if stack == [] {
            gs := INITIAL;
          } else {
            gs, stack := stack[|stack| - 1], stack[..|stack| - 1];
          }
        case State =>
          gs := SetState(env, gs, o);
        case Text =>
          gs, objects := Show(env, o, gs, objects);
        case Build =>
          current := current + MapPoints(gs.ctm, PathPoints(o));
          currentOps := currentOps + [o.op];
        case Paint =>
          if current != [] {
            objects := objects + [PathObject(gs, current, currentOps, o.op, |objects|)];
          }
          current, currentOps := [], [];
        case Image =>
          objects, hasRaster := objects + [ImageOf(o, |objects|)], true;
        case Unknown =>
          unknownOps := unknownOps + [o.op];
        case Ignored =>
      }
    }
    assert ops[..|ops|] == ops;
    page := PageParse(objects, unknownOps, hasRaster);
  }

  method Show(env: Env, o: Operation, gs0: GState, objects0: seq<PageObject>) returns (gs: GState, objects: seq<PageObject>)
    ensures forall w: Walk :: w.gs == gs0 && w.objects == objects0 ==> ShowText(env, w, o) == w.(gs := gs, objects := objects)
  {
    gs, objects := gs0, objects0;
    if o.shown != "" {
      objects := objects + [TextObject(env, gs, o.shown, o.op, |objects|)];
    }
    if StartsNextLine(o.op) {
      gs := MoveText(gs, 0.0, -gs.leading);
    }
  }
}
