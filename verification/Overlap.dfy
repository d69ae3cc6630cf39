/** The overlap measure the audit replay matches findings with. */
module Overlap {
  import opened Prelude

  const FUZZ := 0.5

  /** a sits inside b up to the fuzz, and is not turned inside out. */
  predicate Within(a: Box, b: Box) {
    b.x0 - FUZZ <= a.x0 <= a.x1 <= b.x1 + FUZZ && b.y0 - FUZZ <= a.y0 <= a.y1 <= b.y1 + FUZZ
  }

  function Side(lo: real, hi: real): real {
    MaxR(0.0, hi - lo)
  }

  function Area(a: Box): real {
    Side(a.x0, a.x1) * Side(a.y0, a.y1)
  }

  function Common(a: Box, b: Box): Box {
    Box(MaxR(a.x0, b.x0), MaxR(a.y0, b.y0), MinR(a.x1, b.x1), MinR(a.y1, b.y1))
  }

  function Iou(a: Box, b: Box): real {
    if a == b then 1.0
    else if Within(a, b) || Within(b, a) then 1.0
    else
      var inter := Area(Common(a, b));
      var union := Area(a) + Area(b) - inter;
      if union > 0.0 then inter / union else 0.0
  }

  lemma ProductBound(p: real, q: real, u: real, v: real)
    requires 0.0 <= p <= u && 0.0 <= q <= v
    ensures 0.0 <= p * q <= u * v
  {
    assert p * q <= u * q;
    assert u * q <= u * v;
  }

  lemma CommonIsSmaller(a: Box, b: Box)
    ensures 0.0 <= Area(Common(a, b)) <= Area(a)
  {
    var c := Common(a, b);
    ProductBound(Side(c.x0, c.x1), Side(c.y0, c.y1), Side(a.x0, a.x1), Side(a.y0, a.y1));
  }

  lemma RatioBound(inter: real, union: real)
    requires 0.0 <= inter <= union && union > 0.0
    ensures 0.0 <= inter / union <= 1.0
  {
  }

  /** A proper score for every pair of boxes, degenerate and inside-out ones included. */
  lemma IouLaws(a: Box, b: Box)
    ensures 0.0 <= Iou(a, b) <= 1.0
    ensures Iou(a, a) == 1.0
    ensures Iou(a, b) == Iou(b, a)
  {
    hide Area;
    CommonIsSmaller(a, b);
    CommonIsSmaller(b, a);
    assert Common(a, b) == Common(b, a);
    var inter := Area(Common(a, b));
    var union := Area(a) + Area(b) - inter;
    if union > 0.0 {
      RatioBound(inter, union);
    }
  }
}
