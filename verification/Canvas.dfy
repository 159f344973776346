/** Rasterisation of canvas strokes on a 16 by 16 grid: a Bresenham loop that paints a square
    around every pixel it visits, proved against the ideal line. */
module Canvas {
  import opened Wrappers

  datatype Stroke = Stroke(startX: int, startY: int, endX: int, endY: int, width: int)

  const GRID := 16

  function Abs(x: int): nat
  {
    if x < 0 then -x else x
  }

  function Direction(from: int, to: int): int
  {
    if from < to then 1 else -1
  }

  // ---------------------------------------------------------------- the ideal line

  function DeltaX(s: Stroke): nat
  {
    Abs(s.endX - s.startX)
  }

  function DeltaY(s: Stroke): nat
  {
    Abs(s.endY - s.startY)
  }

  function Length(s: Stroke): nat
  {
    if DeltaX(s) < DeltaY(s) then DeltaY(s) else DeltaX(s)
  }

  /** The whole number nearest to minor * k / major, halves rounded up. */
  function Nearest(k: nat, minor: nat, major: nat): nat
  {
    if major == 0 then 0 else (2 * minor * k + major) / (2 * major)
  }

  /** Twice the scaled distance from the line, as an interval one pixel wide. */
  predicate WithinHalf(k: nat, j: nat, minor: nat, major: nat)
  {
    0 - major < 2 * (major * j - minor * k) <= major
  }

  /** The k-th pixel: k along the longer axis, rounded along the shorter one. */
  function PixelAt(s: Stroke, k: nat): (int, int)
  {
    var i, j :=
      if DeltaY(s) <= DeltaX(s) then k else Nearest(k, DeltaX(s), DeltaY(s)),
      if DeltaY(s) <= DeltaX(s) then Nearest(k, DeltaY(s), DeltaX(s)) else k;
    (s.startX + Direction(s.startX, s.endX) * i, s.startY + Direction(s.startY, s.endY) * j)
  }

  lemma DivisionBounds(n: nat, d: nat)
    requires d > 0
    ensures n / d * d <= n < n / d * d + d
  {
  }

  lemma NearestIsWithinHalf(k: nat, minor: nat, major: nat)
    requires major > 0
    ensures WithinHalf(k, Nearest(k, minor, major), minor, major)
  {
    var n := 2 * minor * k + major;
    DivisionBounds(n, 2 * major);
    var j := Nearest(k, minor, major);
    assert j * (2 * major) == 2 * (major * j);
    assert 2 * minor * k == 2 * (minor * k);
  }

  lemma {:induction false} Scale(j: nat, l: nat, major: nat)
    requires j < l
    ensures major * j + major <= major * l
    decreases l
  {
    assert major * l == major * (l - 1) + major;
    if j < l - 1 {
      Scale(j, l - 1, major);
    }
  }

  lemma WithinHalfUnique(k: nat, j: nat, l: nat, minor: nat, major: nat)
    requires WithinHalf(k, j, minor, major) && WithinHalf(k, l, minor, major)
    ensures j == l
  {
    if j < l {
      Scale(j, l, major);
    } else if l < j {
      Scale(l, j, major);
    }
  }

  /** Rounded points stay between the ends of the shorter axis, and the last one is its end. */
  lemma WithinHalfEnds(k: nat, j: nat, minor: nat, major: nat)
    requires WithinHalf(k, j, minor, major) && k <= major
    ensures j <= minor && (k == major ==> j == minor) && (k == 0 ==> j == 0)
  {
    assert minor * k <= minor * major by { Monotone(minor, k, major); }
    assert minor * major == major * minor;
    if minor < j {
      Scale(minor, j, major);
    }
    if k == major && j < minor {
      Scale(j, minor, major);
    }
    if k == 0 && 0 < j {
      Scale(0, j, major);
    }
  }

  lemma Monotone(m: nat, k: nat, l: nat)
    requires k <= l
    ensures m * k <= m * l
  {
    if k < l {
      Scale(k, l, m);
    }
  }

  /** An offset from the line, scaled by the longer axis, of at most half a pixel, and of a whole half only
      away from the start. */
  predicate RoundedUp(offset: int, major: nat)
  {
    major == 0 || 0 - major < 2 * offset <= major
  }

  /** Every pixel is within half a pixel of the ideal line along the shorter axis, lies in the
      bounding box of the end points, and the first and last are the end points. */
  lemma PixelsFollowLine(s: Stroke, k: nat)
    requires k <= Length(s)
    ensures PixelAt(s, 0) == (s.startX, s.startY)
    ensures PixelAt(s, Length(s)) == (s.endX, s.endY)
    ensures var (x, y) := PixelAt(s, k);
      && Abs(x - s.startX) <= DeltaX(s) && Abs(x - s.endX) <= DeltaX(s)
      && Abs(y - s.startY) <= DeltaY(s) && Abs(y - s.endY) <= DeltaY(s)
    ensures var (x, y) := PixelAt(s, k);
      if DeltaY(s) <= DeltaX(s)
      then Abs(x - s.startX) == k && RoundedUp(DeltaX(s) * Abs(y - s.startY) - DeltaY(s) * k, DeltaX(s))
      else Abs(y - s.startY) == k && RoundedUp(DeltaY(s) * Abs(x - s.startX) - DeltaX(s) * k, DeltaY(s))
  {
    PixelOffset(s, 0);
    PixelOffset(s, k);
    PixelOffset(s, Length(s));
    hide PixelAt, Nearest;
  }

  /** The same, counted from the first end point along each axis. */
  lemma PixelOffset(s: Stroke, k: nat)
    requires k <= Length(s)
    ensures var (x, y) := PixelAt(s, k);
      var flat := DeltaY(s) <= DeltaX(s);
      var minor := if flat then DeltaY(s) else DeltaX(s);
      var i, j := Abs(x - s.startX), Abs(y - s.startY);
      && x == s.startX + Direction(s.startX, s.endX) * i && y == s.startY + Direction(s.startY, s.endY) * j
      && (if flat then i else j) == k
      && var across := if flat then j else i;
         && across <= minor && (k == 0 ==> across == 0) && (k == Length(s) ==> across == minor)
         && RoundedUp(Length(s) * across - minor * k, Length(s))
  {
    if Length(s) > 0 {
      NearestInside(k, if DeltaY(s) <= DeltaX(s) then DeltaY(s) else DeltaX(s), Length(s));
      hide Nearest;
    }
  }

  lemma NearestInside(k: nat, minor: nat, major: nat)
    requires 0 < major && k <= major
    ensures Nearest(k, minor, major) <= minor
    ensures k == 0 ==> Nearest(k, minor, major) == 0
    ensures k == major ==> Nearest(k, minor, major) == minor
    ensures RoundedUp(major * Nearest(k, minor, major) - minor * k, major)
  {
    NearestIsWithinHalf(k, minor, major);
    WithinHalfEnds(k, Nearest(k, minor, major), minor, major);
  }

  // ---------------------------------------------------------------- the loop

  /** State of the loop after k rounds: the i and j steps taken so far are those of the k-th pixel
      and the error term is the one the source accumulates. */
  ghost predicate OnTrack(s: Stroke, k: nat, i: nat, j: nat, error: int)
  {
    && error == DeltaX(s) * j - DeltaY(s) * i + DeltaX(s) - DeltaY(s)
    && (Length(s) == 0 ==> i == 0 && j == 0 && k == 0)
    && (0 < Length(s) && DeltaY(s) <= DeltaX(s) ==> i == k && WithinHalf(k, j, DeltaY(s), DeltaX(s)))
    && (DeltaX(s) < DeltaY(s) ==> j == k && WithinHalf(k, i, DeltaX(s), DeltaY(s)))
  }

  lemma TrackIsPixel(s: Stroke, k: nat, i: nat, j: nat, error: int)
    requires OnTrack(s, k, i, j, error)
    ensures PixelAt(s, k) == (s.startX + Direction(s.startX, s.endX) * i, s.startY + Direction(s.startY, s.endY) * j)
  {
    if 0 < Length(s) {
      if DeltaY(s) <= DeltaX(s) {
        NearestIsWithinHalf(k, DeltaY(s), DeltaX(s));
        WithinHalfUnique(k, j, Nearest(k, DeltaY(s), DeltaX(s)), DeltaY(s), DeltaX(s));
      } else {
        NearestIsWithinHalf(k, DeltaX(s), DeltaY(s));
        WithinHalfUnique(k, i, Nearest(k, DeltaX(s), DeltaY(s)), DeltaX(s), DeltaY(s));
      }
    }
  }

  /** The end point is reached exactly when k rounds have covered the longer axis. */
  lemma TrackEnds(s: Stroke, k: nat, i: nat, j: nat, error: int)
    requires OnTrack(s, k, i, j, error) && k <= Length(s)
    ensures PixelAt(s, k) == (s.endX, s.endY) <==> k == Length(s)
  {
    TrackIsPixel(s, k, i, j, error);
    if 0 < Length(s) {
      if DeltaY(s) <= DeltaX(s) {
        WithinHalfEnds(k, j, DeltaY(s), DeltaX(s));
      } else {
        WithinHalfEnds(k, i, DeltaX(s), DeltaY(s));
      }
    }
  }

  /** One round: the two conditional steps move to the next pixel. */
  lemma TrackStep(s: Stroke, k: nat, i: nat, j: nat, error: int, i': nat, j': nat, error': int)
    requires OnTrack(s, k, i, j, error) && k < Length(s)
    requires i' == if 2 * error >= 0 - DeltaY(s) then i + 1 else i
    requires j' == if 2 * error <= DeltaX(s) then j + 1 else j
    requires error' == error - (if i' > i then DeltaY(s) else 0) + (if j' > j then DeltaX(s) else 0)
    ensures OnTrack(s, k + 1, i', j', error')
  {
    var dx, dy := DeltaX(s), DeltaY(s);
    assert dx * (j + 1) == dx * j + dx && dy * (i + 1) == dy * i + dy;
    assert dy * (k + 1) == dy * k + dy && dx * (k + 1) == dx * k + dx;
  }

  // ---------------------------------------------------------------- painting

  /** Width 1 paints the pixel itself, widths 2 and 3 the eight pixels around it as well. */
  predicate Covers(s: Stroke, k: nat, cx: int, cy: int)
  {
    var (x, y) := PixelAt(s, k);
    Abs(cx - x) <= s.width / 2 && Abs(cy - y) <= s.width / 2
  }

  ghost predicate Covered(s: Stroke, upTo: nat, cx: int, cy: int)
  {
    exists k: nat :: k < upTo && Covers(s, k, cx, cy)
  }

  predicate OnGrid(x: int, y: int)
  {
    0 <= x < GRID && 0 <= y < GRID
  }

  method Paint(cells: array<bool>, x: int, y: int, radius: nat)
    requires cells.Length == GRID * GRID
    modifies cells
    ensures forall cx, cy | OnGrid(cx, cy) ::
              cells[cy * GRID + cx] == (old(cells[cy * GRID + cx]) || (Abs(cx - x) <= radius && Abs(cy - y) <= radius))
  {
    for dy := 0 - radius to radius + 1
      invariant forall cx, cy | OnGrid(cx, cy) ::
                  cells[cy * GRID + cx] == (old(cells[cy * GRID + cx])
                                            || (Abs(cx - x) <= radius && 0 - radius <= cy - y < dy))
    {
      for dx := 0 - radius to radius + 1
        invariant forall cx, cy | OnGrid(cx, cy) ::
                    cells[cy * GRID + cx] == (old(cells[cy * GRID + cx])
                                              || (Abs(cx - x) <= radius && 0 - radius <= cy - y < dy)
                                              || (cy - y == dy && 0 - radius <= cx - x < dx))
      {
        var px, py := x + dx, y + dy;
        if px >= 0 && px < GRID && py >= 0 && py < GRID {
          cells[py * GRID + px] := true;
        }
      }
    }
  }

  /** The brush at the k-th pixel. */
  method PaintPixel(cells: array<bool>, s: Stroke, k: nat, x: int, y: int)
    requires cells.Length == GRID * GRID && s.width >= 0 && PixelAt(s, k) == (x, y)
    modifies cells
    ensures Painted(old(cells[..]), cells[..], s, k)
  {
    hide PixelAt;
    Paint(cells, x, y, s.width / 2);
  }

  /** The cells one pixel adds. */
  ghost predicate Painted(before: seq<bool>, after: seq<bool>, s: Stroke, k: nat)
  {
    && |before| == |after| == GRID * GRID
    && forall cx, cy | OnGrid(cx, cy) ::
         after[cy * GRID + cx] == (before[cy * GRID + cx] || Covers(s, k, cx, cy))
  }

  /** The cells the first so many pixels add. */
  ghost predicate Drawn(before: seq<bool>, after: seq<bool>, s: Stroke, upTo: nat)
  {
    && |before| == |after| == GRID * GRID
    && forall cx, cy | OnGrid(cx, cy) ::
         after[cy * GRID + cx] == (before[cy * GRID + cx] || Covered(s, upTo, cx, cy))
  }

  lemma NothingDrawn(cells: seq<bool>, s: Stroke)
    requires |cells| == GRID * GRID
    ensures Drawn(cells, cells, s, 0)
  {
    hide Covered;
    forall cx, cy
      ensures !Covered(s, 0, cx, cy)
    {
      NothingCovered(s, cx, cy);
    }
  }

  lemma DrawnNext(first: seq<bool>, before: seq<bool>, after: seq<bool>, s: Stroke, k: nat)
    requires Drawn(first, before, s, k) && Painted(before, after, s, k)
    ensures Drawn(first, after, s, k + 1)
  {
    hide Covered, Covers;
    forall cx, cy | OnGrid(cx, cy)
      ensures after[cy * GRID + cx] == (first[cy * GRID + cx] || Covered(s, k + 1, cx, cy))
    {
      CoveredGrows(s, k, cx, cy);
    }
  }

  /** The loop has no bound of its own: it stops for any end points, after one round per pixel. */
  method DrawStroke(cells: array<bool>, s: Stroke) returns (rounds: nat)
    requires cells.Length == GRID * GRID && s.width >= 0
    modifies cells
    ensures rounds == Length(s) + 1
    ensures forall cx, cy | OnGrid(cx, cy) ::
              cells[cy * GRID + cx] == (old(cells[cy * GRID + cx]) || Covered(s, rounds, cx, cy))
  {
    hide OnTrack, PixelAt, Covered, Covers, Painted, Drawn;
    ghost var first := cells[..];
    NothingDrawn(first, s);
    var x, y := s.startX, s.startY;
    var dx := Abs(s.endX - s.startX);
    var sx := if s.startX < s.endX then 1 else -1;
    var dy := 0 - Abs(s.endY - s.startY);
    var sy := if s.startY < s.endY then 1 else -1;
    var error := dx + dy;
    rounds := 0;
    ghost var i, j := 0, 0;
    TrackStart(s);
    while true
      invariant rounds <= Length(s) && OnTrack(s, rounds, i, j, error)
      invariant x == s.startX + sx * i && y == s.startY + sy * j
      invariant Drawn(first, cells[..], s, rounds)
      decreases Length(s) - rounds
    {
      TrackIsPixel(s, rounds, i, j, error);
      TrackEnds(s, rounds, i, j, error);
      ghost var before := cells[..];
      PaintPixel(cells, s, rounds, x, y);
      DrawnNext(first, before, cells[..], s, rounds);
      rounds := rounds + 1;
      if x == s.endX && y == s.endY {
        break;
      }
      ghost var i0, j0, error0 := i, j, error;
      var twice := 2 * error;
      if twice >= dy {
        error := error + dy;
        x := x + sx;
        i := i + 1;
      }
      if twice <= dx {
        error := error + dx;
        y := y + sy;
        j := j + 1;
      }
      TrackStep(s, rounds - 1, i0, j0, error0, i, j, error);
    }
    DrawnIs(first, cells[..], s, rounds);
  }

  lemma DrawnIs(before: seq<bool>, after: seq<bool>, s: Stroke, upTo: nat)
    requires Drawn(before, after, s, upTo)
    ensures |before| == |after| == GRID * GRID
    ensures forall cx, cy | OnGrid(cx, cy) ::
              after[cy * GRID + cx] == (before[cy * GRID + cx] || Covered(s, upTo, cx, cy))
  {
    hide Covered;
  }

  lemma CoveredGrows(s: Stroke, upTo: nat, cx: int, cy: int)
    ensures Covered(s, upTo + 1, cx, cy) <==> Covered(s, upTo, cx, cy) || Covers(s, upTo, cx, cy)
  {
    hide Covers;
  }

  lemma NothingCovered(s: Stroke, cx: int, cy: int)
    ensures !Covered(s, 0, cx, cy)
  {
  }

  lemma TrackStart(s: Stroke)
    ensures OnTrack(s, 0, 0, 0, DeltaX(s) - DeltaY(s))
  {
  }

  /** Some pixel of the stroke is no further from the cell than half the width, in either direction. */
  ghost predicate Marks(s: Stroke, cx: int, cy: int)
  {
    exists k: nat ::
      && k <= Length(s)
      && 2 * Abs(cx - PixelAt(s, k).0) <= s.width && 2 * Abs(cy - PixelAt(s, k).1) <= s.width
  }

  lemma CoveredMarks(s: Stroke, cx: int, cy: int)
    ensures Covered(s, Length(s) + 1, cx, cy) <==> Marks(s, cx, cy)
  {
    hide PixelAt, Length;
    forall k: nat
      ensures Covers(s, k, cx, cy)
         <==> 2 * Abs(cx - PixelAt(s, k).0) <= s.width && 2 * Abs(cy - PixelAt(s, k).1) <= s.width
    {
    }
    hide Covers, Abs;
  }

  predicate ValidStroke(s: Stroke)
  {
    && 0 <= s.startX <= 15 && 0 <= s.startY <= 15 && 0 <= s.endX <= 15 && 0 <= s.endY <= 15
    && 1 <= s.width <= 3
  }

  predicate ValidMark(strokes: seq<Stroke>)
  {
    1 <= |strokes| <= 8 && forall s <- strokes :: ValidStroke(s)
  }

  /** A cell is set exactly when it is close enough to some pixel of some stroke. */
  method Rasterise(strokes: seq<Stroke>) returns (raster: Option<array<bool>>)
    ensures raster.Some? <==> ValidMark(strokes)
    ensures raster.Some? ==> fresh(raster.value) && raster.value.Length == GRID * GRID
    ensures raster.Some? ==>
      forall cx, cy | OnGrid(cx, cy) ::
        raster.value[cy * GRID + cx] <==> exists s <- strokes :: Marks(s, cx, cy)
  {
    hide Covered, Length, Marks;
    if |strokes| < 1 || |strokes| > 8 {
      return None;
    }
    var cells := new bool[GRID * GRID](_ => false);
    for n := 0 to |strokes|
      invariant forall s <- strokes[..n] :: ValidStroke(s)
      invariant forall cx, cy | OnGrid(cx, cy) ::
        cells[cy * GRID + cx] <==> exists s <- strokes[..n] :: Covered(s, Length(s) + 1, cx, cy)
    {
      var s := strokes[n];
      if !(0 <= s.startX <= 15 && 0 <= s.startY <= 15 && 0 <= s.endX <= 15 && 0 <= s.endY <= 15
           && 1 <= s.width <= 3) {
        assert strokes[n] in strokes;
        return None;
      }
      var rounds := DrawStroke(cells, strokes[n]);
      assert strokes[..n + 1] == strokes[..n] + [strokes[n]];
    }
    assert strokes[..|strokes|] == strokes;
    forall s: Stroke, cx, cy
      ensures Covered(s, Length(s) + 1, cx, cy) <==> Marks(s, cx, cy)
    {
      CoveredMarks(s, cx, cy);
    }
    return Some(cells);
  }
}
