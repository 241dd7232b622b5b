/** What the page extractor produces and the matcher consumes. */
module PageObjects {

  datatype Point = Point(x: real, y: real)

  const ORIGIN := Point(0.0, 0.0)

  // Position-independent identity. The source renders each of these as a string;
  // here the rendered parts are kept apart, so equal keys mean equal parts.
  datatype Signature =
    | TextSignature(face: string, size: real, text: string)
    | PathSignature(ops: seq<string>, relative: seq<Point>)
    | ImageSignature(width: int, height: int, pixels: seq<int>)
    | XObjectSignature(name: string)

  // A colour as written into a style: its components in thousandths.
  type Colour = seq<int>

  datatype Style =
    | TextStyle(fill: Colour, size: real)
    | PathStyle(paint: string, width: real, fill: Colour, stroke: Colour)
    | InlineStyle(columns: int, rows: int)
    | XObjectStyle(name: string)

  datatype PageObject = PageObject(
    signature: Signature,
    pos: Point,
    style: Style,
    points: seq<Point>,
    ops: seq<string>,
    index: nat)

  datatype PageParse = PageParse(objects: seq<PageObject>, unknownOps: seq<string>, hasRaster: bool)

  function Signatures(objs: seq<PageObject>): (s: seq<Signature>)
    ensures |s| == |objs| && forall i :: 0 <= i < |objs| ==> s[i] == objs[i].signature
  {
    seq(|objs|, i requires 0 <= i < |objs| => objs[i].signature)
  }
}
