/** Face boxes of the detector mapped from preview pixels to the range the application sees. */
module FaceMap {
  import opened Arithmetic

  const INT32_MAX := 0x7FFF_FFFF

  datatype Size = Size(width: nat, height: nat)
  datatype Point = Point(x: int, y: int)
  datatype Box = Box(left: int, top: int, width: int, height: int)
  datatype Landmarks = Invalid | Landmarks(leftEye: Point, rightEye: Point, mouth: Point)
  datatype Detected = Detected(id: int, score: int, box: Box, marks: Landmarks)

  datatype Rect = Rect(left: int, top: int, right: int, bottom: int)
  datatype Face = Face(id: int, score: int, rect: Rect, leftEye: Point, rightEye: Point, mouth: Point)

  const NO_POINT := Point(-2000, -2000)

  function ToDriver(val: int, base: int, scale: int, offset: int): int
    requires base > 0
  {
    Quotient(val * scale, base) + offset
  }

  function Along(val: int, base: int): int
    requires base > 0
  {
    ToDriver(val, base, 2000, -1000)
  }

  function RectOf(b: Box, dim: Size): Rect
    requires dim.width > 0 && dim.height > 0
  {
    var left, top := Along(b.left, dim.width), Along(b.top, dim.height);
    Rect(left, top, left + ToDriver(b.width, dim.width, 2000, 0), top + ToDriver(b.height, dim.height, 2000, 0))
  }

  function PointOf(p: Point, dim: Size): Point
    requires dim.width > 0 && dim.height > 0
  {
    Point(Along(p.x, dim.width), Along(p.y, dim.height))
  }

  function FaceOf(d: Detected, dim: Size): Face
    requires dim.width > 0 && dim.height > 0
  {
    match d.marks
    case Invalid => Face(d.id, d.score, RectOf(d.box, dim), NO_POINT, NO_POINT, NO_POINT)
    case Landmarks(l, r, m) =>
      Face(d.id, d.score, RectOf(d.box, dim), PointOf(l, dim), PointOf(r, dim), PointOf(m, dim))
  }

  // ---------------------------------------------------------------- bounds

  predicate Inside(b: Box, dim: Size) {
    && 0 <= b.left && 0 <= b.width && b.left + b.width <= dim.width
    && 0 <= b.top && 0 <= b.height && b.top + b.height <= dim.height
  }

  /** The application's range, edges in order. */
  predicate InRange(r: Rect) {
    -1000 <= r.left <= r.right <= 1000 && -1000 <= r.top <= r.bottom <= 1000
  }

  lemma QuotientUnique(a: nat, b: nat, q: int)
    requires b > 0 && b * q <= a < b * q + b
    ensures Quotient(a, b) == q
  {
    SameQuotient(a, b, Quotient(a, b), q);
  }

  /** Two quotients add up to the quotient of the sum, or to one less. */
  lemma Carry(a: nat, c: nat, b: nat, p: nat, r: nat, q: nat, t: nat)
    requires a == b * p + r && c == b * q + t && r < b && t < b
    ensures Quotient(a, b) == p && Quotient(c, b) == q
    ensures Quotient(a + c, b) == p + q + if r + t < b then 0 else 1
  {
    var carry := if r + t < b then 0 else 1;
    assert b * (p + q + carry) == b * p + b * q + b * carry;
    QuotientUnique(a, b, p);
    QuotientUnique(c, b, q);
    QuotientUnique(a + c, b, p + q + carry);
  }

  lemma Divides(a: nat, b: nat)
    requires b > 0
    ensures a == b * (a / b) + a % b && a % b < b
  {}

  lemma AddQuotients(a: nat, c: nat, b: nat)
    requires b > 0
    ensures Quotient(a + c, b) == Quotient(a, b) + Quotient(c, b) + if a % b + c % b < b then 0 else 1
  {
    Divides(a, b);
    Divides(c, b);
    Carry(a, c, b, a / b, a % b, c / b, c % b);
  }

  /** Mapping one edge and then the length is mapping the far edge, or one less; one less exactly
      when the two remainders add up to a full step. */
  lemma FarEdge(near: nat, length: nat, base: nat)
    requires base > 0
    ensures var mapped := Along(near, base) + ToDriver(length, base, 2000, 0);
      && (mapped == Along(near + length, base) || mapped == Along(near + length, base) - 1)
      && (mapped == Along(near + length, base) <==> near * 2000 % base + length * 2000 % base < base)
  {
    AddQuotients(near * 2000, length * 2000, base);
    assert (near + length) * 2000 == near * 2000 + length * 2000;
  }

  lemma QuotientSign(a: nat, b: nat, q: int)
    requires b * q <= a < b * q + b
    ensures q >= 0
  {
    if q < 0 { Times(b, q, 0); }
  }

  lemma QuotientCompare(a: int, b: nat, q: int, bound: int)
    requires b * q <= a < b * q + b
    ensures q <= bound <==> a < b * bound + b
  {
    if q < bound { Times(b, q, bound); }
    if bound < q { Times(b, bound, q); }
  }

  lemma NegativeQuotient(a: int, b: nat, q: int)
    requires a < 0 && b * q - b < a <= b * q
    ensures q <= 0 && (q >= 0 <==> 0 < a + b)
  {
    if q < 0 { Times(b, q, 0); }
    if q > 0 { Times(b, 0, q); }
  }

  /** An edge is in range exactly when it is less than a two-thousandth outside the preview. */
  lemma InRangeExactly(v: int, base: int)
    requires base > 0
    ensures -1000 <= Along(v, base) <==> -base < v * 2000
    ensures Along(v, base) <= 1000 <==> v * 2000 < 2001 * base
  {
    var a := v * 2000;
    if a >= 0 {
      QuotientSign(a, base, Quotient(a, base));
      QuotientCompare(a, base, Quotient(a, base), 2000);
    } else {
      NegativeQuotient(a, base, Quotient(a, base));
    }
  }

  lemma EdgeBounds(near: nat, length: nat, base: nat)
    requires base > 0 && near + length <= base
    ensures var mapped := Along(near, base) + ToDriver(length, base, 2000, 0);
      && -1000 <= Along(near, base) <= mapped <= 1000
      && 0 <= Along(near + length, base) - mapped <= 1
  {
    FarEdge(near, length, base);
    InRangeExactly(near, base);
    InRangeExactly(near + length, base);
    QuotientSign(length * 2000, base, Quotient(length * 2000, base));
  }

  /** A face box inside the preview maps to a rectangle inside the range, its edges in order, its
      far edges at most one below where they would map on their own. */
  lemma RectBounds(b: Box, dim: Size)
    requires dim.width > 0 && dim.height > 0 && Inside(b, dim)
    ensures var r := RectOf(b, dim);
      && InRange(r)
      && 0 <= Along(b.left + b.width, dim.width) - r.right <= 1
      && 0 <= Along(b.top + b.height, dim.height) - r.bottom <= 1
  {
    EdgeBounds(b.left, b.width, dim.width);
    EdgeBounds(b.top, b.height, dim.height);
  }

  lemma AlongMonotone(v: nat, w: nat, base: nat)
    requires base > 0 && v <= w
    ensures Along(v, base) <= Along(w, base)
  {
    QuotientOrder(v * 2000, w * 2000, base, Quotient(v * 2000, base), Quotient(w * 2000, base));
  }

  /** Mapping keeps order: a point inside a box maps inside the rectangle, or one past its far edge. */
  lemma PointInRect(p: Point, b: Box, dim: Size)
    requires dim.width > 0 && dim.height > 0 && Inside(b, dim)
    requires b.left <= p.x <= b.left + b.width && b.top <= p.y <= b.top + b.height
    ensures var r, m := RectOf(b, dim), PointOf(p, dim);
      r.left <= m.x <= r.right + 1 && r.top <= m.y <= r.bottom + 1
  {
    RectBounds(b, dim);
    AlongMonotone(b.left, p.x, dim.width);
    AlongMonotone(p.x, b.left + b.width, dim.width);
    AlongMonotone(b.top, p.y, dim.height);
    AlongMonotone(p.y, b.top + b.height, dim.height);
  }

  /** What an edge maps to, without a division: a step of a two-thousandth, counted from the near edge
      of the preview towards zero. */
  lemma AlongIs(v: int, base: nat, q: int)
    requires base > 0
    requires if v >= 0 then base * q <= v * 2000 < base * q + base else base * q - base < v * 2000 <= base * q
    ensures Along(v, base) == q - 1000
  {
    if v >= 0 {
      SameQuotient(v * 2000, base, Quotient(v * 2000, base), q);
    } else {
      assert base * (0 - q) == 0 - base * q;
      assert base * (0 - Quotient(v * 2000, base)) == 0 - base * Quotient(v * 2000, base);
      SameQuotient(0 - v * 2000, base, 0 - Quotient(v * 2000, base), 0 - q);
    }
  }

  /** Each landmark goes where it belongs, x along the width and y along the height; without landmarks
      all of them are out of range. */
  lemma FaceParts(d: Detected, dim: Size)
    requires dim.width > 0 && dim.height > 0
    ensures var f := FaceOf(d, dim);
      && f.id == d.id && f.score == d.score
      && f.rect.left == Along(d.box.left, dim.width) && f.rect.top == Along(d.box.top, dim.height)
      && (d.marks == Invalid ==> f.leftEye == f.rightEye == f.mouth == Point(-2000, -2000))
      && (d.marks.Landmarks? ==>
            && f.leftEye == Point(Along(d.marks.leftEye.x, dim.width), Along(d.marks.leftEye.y, dim.height))
            && f.rightEye == Point(Along(d.marks.rightEye.x, dim.width), Along(d.marks.rightEye.y, dim.height))
            && f.mouth == Point(Along(d.marks.mouth.x, dim.width), Along(d.marks.mouth.y, dim.height)))
  {}

  /** A box over the whole preview maps to the whole range. */
  lemma WholePreview(dim: Size)
    requires dim.width > 0 && dim.height > 0
    ensures RectOf(Box(0, 0, dim.width, dim.height), dim) == Rect(-1000, -1000, 1000, 1000)
  {
    QuotientUnique(0, dim.width, 0);
    QuotientUnique(0, dim.height, 0);
    QuotientUnique(dim.width * 2000, dim.width, 2000);
    QuotientUnique(dim.height * 2000, dim.height, 2000);
  }

  // ---------------------------------------------------------------- the face loop

  /** The products stay within 32 bits. */
  predicate Fits(v: int) {
    -INT32_MAX - 1 <= v * 2000 <= INT32_MAX
  }

  predicate PointFits(p: Point) {
    Fits(p.x) && Fits(p.y)
  }

  predicate DetectedFits(d: Detected) {
    && Fits(d.box.left) && Fits(d.box.top) && Fits(d.box.width) && Fits(d.box.height)
    && (d.marks.Landmarks? ==> PointFits(d.marks.leftEye) && PointFits(d.marks.rightEye) && PointFits(d.marks.mouth))
  }

  /** Fills the face table; a preview without size is refused. */
  method MapFaces(faces: array<Face>, detected: seq<Detected>, dim: Size) returns (ok: bool)
    requires |detected| <= faces.Length && forall i :: 0 <= i < |detected| ==> DetectedFits(detected[i])
    modifies faces
    ensures ok == (dim.width > 0 && dim.height > 0)
    ensures !ok ==> faces[..] == old(faces[..])
    ensures ok ==> forall i :: 0 <= i < |detected| ==> faces[i] == FaceOf(detected[i], dim)
    ensures ok ==> forall i :: 0 <= i < |detected| && Inside(detected[i].box, dim) ==> InRange(faces[i].rect)
    ensures faces[|detected|..] == old(faces[|detected|..])
  {
    if dim.width <= 0 || dim.height <= 0 {
      return false;
    }
    for i := 0 to |detected|
      invariant forall k :: 0 <= k < i ==> faces[k] == FaceOf(detected[k], dim)
      invariant forall k :: 0 <= k < i && Inside(detected[k].box, dim) ==> InRange(faces[k].rect)
      invariant faces[|detected|..] == old(faces[|detected|..])
    {
      var box := detected[i].box;
      var left := ToDriver(box.left, dim.width, 2000, -1000);
      var top := ToDriver(box.top, dim.height, 2000, -1000);
      var right := left + ToDriver(box.width, dim.width, 2000, 0);
      var bottom := top + ToDriver(box.height, dim.height, 2000, 0);
      var leftEye, rightEye, mouth := NO_POINT, NO_POINT, NO_POINT;
      if detected[i].marks.Landmarks? {
        leftEye := PointOf(detected[i].marks.leftEye, dim);
        rightEye := PointOf(detected[i].marks.rightEye, dim);
        mouth := PointOf(detected[i].marks.mouth, dim);
      }
      faces[i] := Face(detected[i].id, detected[i].score, Rect(left, top, right, bottom), leftEye, rightEye, mouth);
      if Inside(box, dim) {
        RectBounds(box, dim);
      }
    }
    return true;
  }
}
