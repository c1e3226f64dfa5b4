/**
 * The composite image: all swatches tiled in a grid of four columns, row by row,
 * on a white canvas of 4 swatch widths by ceil(N/4) swatch heights.
 */
module Grid {
  import opened Wrappers

  const Columns := 4

  /** The top-left corner at which a swatch is pasted. */
  datatype Offset = Offset(x: nat, y: nat)

  /** The canvas size and the paste offset of each swatch, in swatch order. */
  datatype Composite = Composite(width: nat, height: nat, offsets: seq<Offset>)

  /** `(N + cols - 1) // cols`. */
  function Rows(n: nat): nat
  {
    (n + Columns - 1) / Columns
  }

  /** The grid cell of the swatch at position `k`: column `k % 4`, row `k / 4`. */
  function Cell(k: nat, w: nat, h: nat): Offset
  {
    Offset((k % Columns) * w, (k / Columns) * h)
  }

  /** The layout of `n` swatches of size `w` by `h`; none when there is no swatch. */
  function Arrange(n: nat, w: nat, h: nat): (r: Option<Composite>)
    ensures r.None? <==> n == 0
    ensures r.Some? ==> |r.value.offsets| == n
  {
    if n == 0 then None
    else Some(Composite(Columns * w, Rows(n) * h, seq(n, k requires 0 <= k => Cell(k, w, h))))
  }

  /** `Rows(n)` is the ceiling of n / 4: just enough rows for `n` cells. */
  lemma RowsIsCeiling(n: nat)
    requires n > 0
    ensures Columns * (Rows(n) - 1) < n <= Columns * Rows(n)
  {
  }

  lemma {:induction false} MulMonotone(a: nat, b: nat, w: nat)
    requires a < b
    ensures a * w + w <= b * w
    decreases b - a
  {
    assert b * w == (b - 1) * w + w;
    if a < b - 1 {
      MulMonotone(a, b - 1, w);
    }
  }

  /** Every cell of `n` swatches lies wholly inside the canvas. */
  lemma CellInside(k: nat, n: nat, w: nat, h: nat)
    requires k < n
    ensures Cell(k, w, h).x + w <= Columns * w
    ensures Cell(k, w, h).y + h <= Rows(n) * h
  {
    MulMonotone(k % Columns, Columns, w);
    MulMonotone(k / Columns, Rows(n), h);
  }

  /** Swatches at different positions do not overlap (for a swatch of positive size). */
  lemma CellsDisjoint(j: nat, k: nat, w: nat, h: nat)
    requires j != k && w > 0 && h > 0
    ensures var a, b := Cell(j, w, h), Cell(k, w, h);
      a.x + w <= b.x || b.x + w <= a.x || a.y + h <= b.y || b.y + h <= a.y
  {
    if j % Columns < k % Columns {
      MulMonotone(j % Columns, k % Columns, w);
    } else if k % Columns < j % Columns {
      MulMonotone(k % Columns, j % Columns, w);
    } else if j / Columns < k / Columns {
      MulMonotone(j / Columns, k / Columns, h);
    } else {
      assert k / Columns < j / Columns;
      MulMonotone(k / Columns, j / Columns, h);
    }
  }

  /** Swatches are laid out left to right, then top to bottom. */
  lemma CellsRowMajor(j: nat, k: nat, w: nat, h: nat)
    requires j < k && w > 0 && h > 0
    ensures var a, b := Cell(j, w, h), Cell(k, w, h);
      a.y < b.y || (a.y == b.y && a.x < b.x)
  {
    if j / Columns < k / Columns {
      MulMonotone(j / Columns, k / Columns, h);
    } else {
      assert j % Columns < k % Columns;
      MulMonotone(j % Columns, k % Columns, w);
    }
  }

  /** What the layout promises: one offset per swatch, inside the canvas, no two overlapping, in row-major order. */
  lemma ArrangeIsGrid(n: nat, w: nat, h: nat)
    requires n > 0 && w > 0 && h > 0
    ensures Arrange(n, w, h).Some?
    ensures var c := Arrange(n, w, h).value;
      && c.width == Columns * w
      && c.height == Rows(n) * h
      && Columns * (c.height - h) < n * h <= Columns * c.height
      && |c.offsets| == n
      && (forall k :: 0 <= k < n ==> c.offsets[k].x + w <= c.width && c.offsets[k].y + h <= c.height)
      && (forall j, k :: 0 <= j < k < n ==>
            c.offsets[j].x + w <= c.offsets[k].x || c.offsets[k].x + w <= c.offsets[j].x ||
            c.offsets[j].y + h <= c.offsets[k].y || c.offsets[k].y + h <= c.offsets[j].y)
      && (forall j, k :: 0 <= j < k < n ==>
            c.offsets[j].y < c.offsets[k].y || (c.offsets[j].y == c.offsets[k].y && c.offsets[j].x < c.offsets[k].x))
  {
    var c := Arrange(n, w, h).value;
    RowsIsCeiling(n);
    assert c.height == Rows(n) * h;
    assert Columns * (Rows(n) - 1) * h < n * h by {
      MulMonotone(Columns * (Rows(n) - 1), n, h);
    }
    assert n * h <= Columns * Rows(n) * h by {
      if n < Columns * Rows(n) { MulMonotone(n, Columns * Rows(n), h); }
    }
    forall k | 0 <= k < n
      ensures c.offsets[k].x + w <= c.width && c.offsets[k].y + h <= c.height
    {
      CellInside(k, n, w, h);
    }
    forall j, k | 0 <= j < k < n
      ensures c.offsets[j].x + w <= c.offsets[k].x || c.offsets[k].x + w <= c.offsets[j].x ||
              c.offsets[j].y + h <= c.offsets[k].y || c.offsets[k].y + h <= c.offsets[j].y
    {
      CellsDisjoint(j, k, w, h);
    }
    forall j, k | 0 <= j < k < n
      ensures c.offsets[j].y < c.offsets[k].y || (c.offsets[j].y == c.offsets[k].y && c.offsets[j].x < c.offsets[k].x)
    {
      CellsRowMajor(j, k, w, h);
    }
  }

  /** Four 200 by 100 swatches make one row on an 800 by 100 canvas. */
  lemma FourSwatchesOneRow()
    ensures Arrange(4, 200, 100) == Some(Composite(800, 100,
      [Offset(0, 0), Offset(200, 0), Offset(400, 0), Offset(600, 0)]))
  {
    var c := Arrange(4, 200, 100).value;
    assert |c.offsets| == 4 && c.offsets[0] == Offset(0, 0);
    assert c.offsets[1] == Offset(200, 0) && c.offsets[2] == Offset(400, 0) && c.offsets[3] == Offset(600, 0);
    assert c.offsets == [Offset(0, 0), Offset(200, 0), Offset(400, 0), Offset(600, 0)];
    assert Rows(4) == 1 && c.width == 800 && c.height == 100;
  }

  /** The paste loop: the canvas size, then one offset per swatch in order. */
  method Layout(n: nat, w: nat, h: nat) returns (composite: Option<Composite>)
    ensures composite == Arrange(n, w, h)
  {
    if n == 0 {
      return None;
    }
    var rows := (n + Columns - 1) / Columns;
    var offsets: seq<Offset> := [];
    var idx := 0;
    while idx < n
      invariant 0 <= idx <= n
      invariant |offsets| == idx
      invariant forall k :: 0 <= k < idx ==> offsets[k] == Cell(k, w, h)
    {
      var x := (idx % Columns) * w;
      var y := (idx / Columns) * h;
      offsets := offsets + [Offset(x, y)];
      idx := idx + 1;
    }
    assert offsets == seq(n, k requires 0 <= k => Cell(k, w, h));
    composite := Some(Composite(Columns * w, rows * h, offsets));
  }
}
