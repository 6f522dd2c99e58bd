/** Integer rectangles and margins of the canvas layout (`nari-canvas/src/layout.rs`). */
module Layout {

  datatype Align = Negative | Center | Positive

  /** A rectangle with inclusive-exclusive intent; the original does not enforce `x0 <= x1`. */
  datatype Rect = Rect(x0: int, x1: int, y0: int, y1: int)

  datatype Margin = Margin(left: int, right: int, top: int, bottom: int)

  predicate WellFormed(r: Rect) { r.x0 <= r.x1 && r.y0 <= r.y1 }

  /** Rust's `/` on integers rounds towards zero (Dafny's rounds towards minus infinity). */
  function DivTrunc(a: int, b: int): (q: int)
    requires b > 0
    ensures a >= 0 ==> q == a / b
    ensures a < 0 ==> q == -((-a) / b)
  {
    if a >= 0 then a / b else -((-a) / b)
  }

  /** `Rect::width` asserts `x0 <= x1` and returns the horizontal extent. */
  function Width(r: Rect): (w: nat)
    requires r.x0 <= r.x1
    ensures r.x0 + w == r.x1
  {
    r.x1 - r.x0
  }

  /** `Rect::height` asserts `y0 <= y1` and returns the vertical extent. */
  function Height(r: Rect): (h: nat)
    requires r.y0 <= r.y1
    ensures r.y0 + h == r.y1
  {
    r.y1 - r.y0
  }

  function Min(a: int, b: int): int { if a <= b then a else b }
  function Max(a: int, b: int): int { if a >= b then a else b }

  /** `Rect::margin`: moves each edge inwards by its margin, but never past the opposite original edge. */
  function ApplyMargin(r: Rect, m: Margin): Rect
  {
    Rect(Min(r.x0 + m.left, r.x1), Max(r.x1 - m.right, r.x0),
         Min(r.y0 + m.top, r.y1), Max(r.y1 - m.bottom, r.y0))
  }

  /** Each inset edge is clamped by the opposite original edge, whatever the margins. */
  lemma MarginClamped(r: Rect, m: Margin)
    ensures var s := ApplyMargin(r, m);
      s.x0 <= r.x1 && s.x1 >= r.x0 && s.y0 <= r.y1 && s.y1 >= r.y0
    ensures var s := ApplyMargin(r, m);
      (s.x0 == r.x0 + m.left || s.x0 == r.x1) && (s.x1 == r.x1 - m.right || s.x1 == r.x0)
  {
  }

  /** When the margins fit, `margin` is an exact inset and the result is well formed and inside `r`. */
  lemma MarginExactInset(r: Rect, m: Margin)
    requires WellFormed(r)
    requires 0 <= m.left && 0 <= m.right && 0 <= m.top && 0 <= m.bottom
    requires m.left + m.right <= Width(r) && m.top + m.bottom <= Height(r)
    ensures var s := ApplyMargin(r, m);
      && s == Rect(r.x0 + m.left, r.x1 - m.right, r.y0 + m.top, r.y1 - m.bottom)
      && WellFormed(s)
      && Width(s) == Width(r) - m.left - m.right
      && Height(s) == Height(r) - m.top - m.bottom
  {
  }

  /** Without the fitting condition the clamp does not prevent an inverted result. */
  lemma MarginCanInvert()
    ensures var s := ApplyMargin(Rect(0, 10, 0, 10), Margin(8, 8, 0, 0));
      s.x0 == 8 && s.x1 == 2 && !WellFormed(s)
  {
  }

  /** `Rect::offset`: translates all four coordinates. */
  function Offset(r: Rect, x: int, y: int): (s: Rect)
    ensures s.x1 - s.x0 == r.x1 - r.x0 && s.y1 - s.y0 == r.y1 - r.y0
    ensures s.x0 - r.x0 == x && s.y0 - r.y0 == y
  {
    Rect(r.x0 + x, r.x1 + x, r.y0 + y, r.y1 + y)
  }

  /** `Rect::hittest`: inclusive on all four edges. */
  predicate Hittest(r: Rect, x: int, y: int)
  {
    r.x0 <= x && x <= r.x1 && r.y0 <= y && y <= r.y1
  }

  /** Offsets compose, and translating a rectangle translates its hit region. */
  lemma OffsetHittest(r: Rect, dx: int, dy: int, x: int, y: int)
    ensures Hittest(Offset(r, dx, dy), x + dx, y + dy) == Hittest(r, x, y)
    ensures Offset(Offset(r, dx, dy), -dx, -dy) == r
  {
  }

  /** All four corners of a well-formed rectangle hit, and nothing outside it does. */
  lemma HittestInclusive(r: Rect, x: int, y: int)
    requires WellFormed(r)
    ensures Hittest(r, r.x0, r.y0) && Hittest(r, r.x1, r.y1) && Hittest(r, r.x0, r.y1) && Hittest(r, r.x1, r.y0)
    ensures (x < r.x0 || x > r.x1 || y < r.y0 || y > r.y1) ==> !Hittest(r, x, y)
  {
  }

  /** `Rect::center` as written: both `dx` and `dy` are computed from the x fields. */
  function Center(outer: Rect, r: Rect): Rect
  {
    var dx := outer.x0 - r.x0 + outer.x1;
    var dy := outer.x0 - r.x0 + outer.x1;
    Rect(DivTrunc(dx - r.x1, 2), DivTrunc(dx + r.x1, 2), DivTrunc(dy - r.y1, 2), DivTrunc(dy + r.y1, 2))
  }

  /** The vertical placement of `Center` follows the horizontal extent of `outer`:
      a 4x4 box centred in a rectangle spanning x 0..10 and y 100..120 lands at y 3..7. */
  lemma CenterUsesHorizontalExtentForY()
    ensures Center(Rect(0, 10, 100, 120), Rect(0, 4, 0, 4)) == Rect(3, 7, 3, 7)
    ensures !Hittest(Rect(0, 10, 100, 120), 3, 3)
  {
  }

  /** `Rect::center` with `dy` taken from the y fields, as its x half evidently intends. */
  function CenterIntended(outer: Rect, r: Rect): Rect
  {
    var dx := outer.x0 - r.x0 + outer.x1;
    var dy := outer.y0 - r.y0 + outer.y1;
    Rect(DivTrunc(dx - r.x1, 2), DivTrunc(dx + r.x1, 2), DivTrunc(dy - r.y1, 2), DivTrunc(dy + r.y1, 2))
  }

  /** A box of size `w` x `h` (given as a rectangle at the origin) is centred on both axes:
      the midpoint of the result is the midpoint of `outer` up to one unit of rounding,
      and the extent is the box's up to one unit. */
  lemma CenterIntendedCentres(outer: Rect, w: nat, h: nat)
    ensures var c := CenterIntended(outer, Rect(0, w, 0, h));
      && -1 <= (c.x0 + c.x1) - (outer.x0 + outer.x1) <= 1
      && -1 <= (c.y0 + c.y1) - (outer.y0 + outer.y1) <= 1
      && w - 1 <= c.x1 - c.x0 <= w + 1
      && h - 1 <= c.y1 - c.y0 <= h + 1
  {
    var c := CenterIntended(outer, Rect(0, w, 0, h));
    HalfSum(outer.x0 + outer.x1, w);
    HalfSum(outer.y0 + outer.y1, h);
  }

  lemma HalfSum(a: int, w: nat)
    ensures -1 <= DivTrunc(a - w, 2) + DivTrunc(a + w, 2) - a <= 1
    ensures w - 1 <= DivTrunc(a + w, 2) - DivTrunc(a - w, 2) <= w + 1
  {
  }
}
