/** The three vertex streams that `generate_pyramid_buffers` builds for the
    single-draw pyramid scenes: a grid of xCount by yCount by zCount
    pyramids, each of 18 vertices, drawn from the back layer to the front. */
module Pyramids {

  // One pyramid is 18 vertices (six triangles): 54 floats in the position
  // and transform streams, 72 in the colour stream. The numbers are written
  // out as literals so that the arithmetic on them stays linear.

  /** The number of pyramids in the grid. */
  function Count(xc: int, yc: int, zc: int): int
  {
    xc * yc * zc
  }

  /** A grid cell, each coordinate counted from 1. */
  datatype Cell = Cell(x: int, y: int, z: int)

  predicate InGrid(xc: int, yc: int, zc: int, c: Cell)
  {
    1 <= c.x <= xc && 1 <= c.y <= yc && 1 <= c.z <= zc
  }

  /** The program sizes the streams in 32-bit `int`: the colour stream,
      72 floats per pyramid, is the first whose size passes 2^31 - 1, from
      a 311 by 311 by 311 grid on. */
  lemma ColourSizeOverflow()
    ensures 72 * Count(310, 310, 310) <= 0x7FFF_FFFF < 72 * Count(311, 311, 311)
    ensures 54 * Count(341, 341, 341) <= 0x7FFF_FFFF < 54 * Count(342, 342, 342)
  {
  }

  /** The cell the nested loops visit after `c`: the next y in the row,
      else the first y of the next x, else the first cell of the layer in
      front. */
  function Next(xc: int, yc: int, c: Cell): Cell
  {
    if c.y < yc then Cell(c.x, c.y + 1, c.z)
    else if c.x < xc then Cell(c.x + 1, 1, c.z)
    else Cell(1, 1, c.z - 1)
  }

  /** The cell of the q-th pyramid in draw order: the outermost loop runs
      z down from zCount to 1, then x up from 1, then y up from 1. */
  function CellAt(xc: int, yc: int, zc: int, q: nat): (c: Cell)
    ensures xc >= 1 && yc >= 1 ==> 1 <= c.x <= xc && 1 <= c.y <= yc && c.z <= zc
    ensures q < yc ==> c == Cell(1, q + 1, zc)
  {
    if q == 0 then Cell(1, 1, zc) else Next(xc, yc, CellAt(xc, yc, zc, q - 1))
  }

  /** The same cell in closed form: y is the fastest digit and z the
      slowest, counted down from zCount. */
  function GridCell(xc: int, yc: int, zc: int, q: int): Cell
    requires xc >= 1 && yc >= 1
  {
    Cell(q / yc % xc + 1, q % yc + 1, zc - q / yc / xc)
  }

  /** The position of a cell in draw order. */
  function Ordinal(xc: int, yc: int, zc: int, c: Cell): int
  {
    ((zc - c.z) * xc + (c.x - 1)) * yc + (c.y - 1)
  }

  /** The offset of a cell along one axis: three units per grid step. */
  function Offset(c: Cell, axis: int): int
  {
    (if axis == 0 then c.x - 1 else if axis == 1 then c.y - 1 else c.z - 1) * 3
  }

  /** The k-th float of the transform stream: the offset of the pyramid the
      float belongs to, along axis k mod 3. */
  function TransformAt(xc: int, yc: int, zc: int, k: nat): (r: int)
    ensures r % 3 == 0
    ensures xc >= 1 && yc >= 1 && k % 3 == 0 ==> 0 <= r < 3 * xc
    ensures xc >= 1 && yc >= 1 && k % 3 == 1 ==> 0 <= r < 3 * yc
    ensures xc >= 1 && yc >= 1 && k % 3 == 2 ==> r < 3 * zc
  {
    Offset(CellAt(xc, yc, zc, k / 54), k % 3)
  }

  lemma DivModUnique(a: int, b: int, m: int)
    requires m > 0 && 0 <= b < m
    ensures (a * m + b) / m == a
    ensures (a * m + b) % m == b
  {
    var n := a * m + b;
    assert (n / m) * m <= n < (n / m + 1) * m;
    MulCancel(a, n / m + 1, m);
    MulCancel(n / m, a + 1, m);
  }

  lemma MulMonotone(a: int, b: int, c: int)
    requires a <= b && c >= 0
    ensures a * c <= b * c
  {
  }

  lemma MulCancel(a: int, b: int, m: int)
    requires m > 0 && a * m < b * m
    ensures a < b
  {
  }

  lemma DivBelow(q: int, m: int, k: int)
    requires m > 0 && 0 <= q
    ensures q / m < k <==> q < m * k
  {
    assert (q / m) * m <= q < (q / m + 1) * m;
    if q < m * k {
      MulCancel(q / m, k, m);
    } else {
      MulMonotone(k, q / m + 1, m);
    }
  }

  lemma DivMonotone(p: int, q: int, m: int)
    requires m > 0 && p <= q
    ensures p / m <= q / m
  {
    assert (p / m) * m <= p;
    assert q < (q / m + 1) * m;
    MulCancel(p / m, q / m + 1, m);
  }

  /** Stepping through the nested loops enumerates cells in the order of
      the closed form. */
  lemma {:induction false} CellAtClosedForm(xc: int, yc: int, zc: int, q: nat)
    requires xc >= 1 && yc >= 1
    ensures CellAt(xc, yc, zc, q) == GridCell(xc, yc, zc, q)
  {
    if q > 0 {
      var p: nat := q - 1;
      calc {
        CellAt(xc, yc, zc, q);
        Next(xc, yc, CellAt(xc, yc, zc, p));
        { CellAtClosedForm(xc, yc, zc, p); }
        Next(xc, yc, GridCell(xc, yc, zc, p));
        { GridCellNext(xc, yc, zc, p); }
        GridCell(xc, yc, zc, p + 1);
      }
    }
  }

  /** The closed form steps like the loops do. */
  lemma GridCellNext(xc: int, yc: int, zc: int, p: nat)
    requires xc >= 1 && yc >= 1
    ensures GridCell(xc, yc, zc, p + 1) == Next(xc, yc, GridCell(xc, yc, zc, p))
  {
    var a, b := p / yc, p % yc;
    var e, f := a / xc, a % xc;
    assert p == a * yc + b;
    assert a == e * xc + f;
    if b + 1 < yc {
      DivModUnique(a, b + 1, yc);
    } else {
      assert p + 1 == (a + 1) * yc + 0;
      DivModUnique(a + 1, 0, yc);
      if f + 1 < xc {
        DivModUnique(e, f + 1, xc);
      } else {
        assert a + 1 == (e + 1) * xc + 0;
        DivModUnique(e + 1, 0, xc);
      }
    }
  }

  /** The loops draw exactly the first Count positions: the q-th cell lies
      in the grid if and only if q is below the number of pyramids. */
  lemma DrawnCells(xc: int, yc: int, zc: int, q: nat)
    requires xc >= 1 && yc >= 1 && zc >= 1
    ensures InGrid(xc, yc, zc, CellAt(xc, yc, zc, q)) <==> q < Count(xc, yc, zc)
  {
    CellAtClosedForm(xc, yc, zc, q);
    GridCellInGrid(xc, yc, zc, q);
  }

  lemma GridCellRanges(xc: int, yc: int, zc: int, q: nat)
    requires xc >= 1 && yc >= 1
    ensures 1 <= GridCell(xc, yc, zc, q).x <= xc && 1 <= GridCell(xc, yc, zc, q).y <= yc
    ensures GridCell(xc, yc, zc, q).z == zc - q / yc / xc <= zc
  {
  }

  lemma GridCellInGrid(xc: int, yc: int, zc: int, q: nat)
    requires xc >= 1 && yc >= 1 && zc >= 1
    ensures InGrid(xc, yc, zc, GridCell(xc, yc, zc, q)) <==> q < Count(xc, yc, zc)
  {
    GridCellRanges(xc, yc, zc, q);
    DivBelow(q / yc, xc, zc);
    DivBelow(q, yc, xc * zc);
    assert yc * (xc * zc) == Count(xc, yc, zc);
  }

  /** Every cell of the grid is drawn, at the position `Ordinal` gives. */
  lemma CellOfOrdinal(xc: int, yc: int, zc: int, c: Cell)
    requires xc >= 1 && yc >= 1 && zc >= 1 && InGrid(xc, yc, zc, c)
    ensures 0 <= Ordinal(xc, yc, zc, c) < Count(xc, yc, zc)
    ensures CellAt(xc, yc, zc, Ordinal(xc, yc, zc, c)) == c
  {
    OrdinalBounds(xc, yc, zc, c);
    GridCellOfOrdinal(xc, yc, zc, c);
    CellAtClosedForm(xc, yc, zc, Ordinal(xc, yc, zc, c));
  }

  lemma OrdinalBounds(xc: int, yc: int, zc: int, c: Cell)
    requires xc >= 1 && yc >= 1 && zc >= 1 && InGrid(xc, yc, zc, c)
    ensures 0 <= Ordinal(xc, yc, zc, c) < Count(xc, yc, zc)
  {
    var a := (zc - c.z) * xc + (c.x - 1);
    assert Ordinal(xc, yc, zc, c) == a * yc + (c.y - 1);
    MulMonotone(0, zc - c.z, xc);
    MulMonotone(zc - c.z, zc - 1, xc);
    assert a + 1 <= zc * xc;
    MulMonotone(0, a, yc);
    MulMonotone(a + 1, zc * xc, yc);
    assert a * yc + yc == (a + 1) * yc;
  }

  lemma GridCellOfOrdinal(xc: int, yc: int, zc: int, c: Cell)
    requires xc >= 1 && yc >= 1 && InGrid(xc, yc, zc, c)
    ensures GridCell(xc, yc, zc, Ordinal(xc, yc, zc, c)) == c
  {
    var a := (zc - c.z) * xc + (c.x - 1);
    assert Ordinal(xc, yc, zc, c) == a * yc + (c.y - 1);
    DivModUnique(a, c.y - 1, yc);
    DivModUnique(zc - c.z, c.x - 1, xc);
  }

  /** Every position in draw order maps back to itself through `Ordinal`:
      with `CellOfOrdinal`, draw order is a bijection between the positions
      0 .. Count - 1 and the cells of the grid. */
  lemma OrdinalOfCell(xc: int, yc: int, zc: int, q: nat)
    requires xc >= 1 && yc >= 1
    ensures Ordinal(xc, yc, zc, CellAt(xc, yc, zc, q)) == q
  {
    CellAtClosedForm(xc, yc, zc, q);
    OrdinalOfGridCell(xc, yc, zc, q);
  }

  lemma OrdinalOfGridCell(xc: int, yc: int, zc: int, q: nat)
    requires xc >= 1 && yc >= 1
    ensures Ordinal(xc, yc, zc, GridCell(xc, yc, zc, q)) == q
  {
    var r := q / yc;
    assert q == r * yc + q % yc;
    assert r == (r / xc) * xc + r % xc;
  }

  /** Pyramids are drawn back to front: a later pyramid never lies in a
      layer behind an earlier one. */
  lemma BackToFront(xc: int, yc: int, zc: int, p: nat, q: nat)
    requires xc >= 1 && yc >= 1 && p <= q
    ensures CellAt(xc, yc, zc, p).z >= CellAt(xc, yc, zc, q).z
  {
    CellAtClosedForm(xc, yc, zc, p);
    CellAtClosedForm(xc, yc, zc, q);
    DivMonotone(p, q, yc);
    DivMonotone(p / yc, q / yc, xc);
    assert GridCell(xc, yc, zc, p).z >= GridCell(xc, yc, zc, q).z;
  }

  /** The transform loop: for each pyramid in draw order, 18 vertices, each
      carrying the pyramid's offset (x-1, y-1, z-1) times 3. */
  method FillTransforms(xc: int, yc: int, zc: int) returns (t: array<int>)
    requires xc >= 1 && yc >= 1 && zc >= 1
    ensures fresh(t)
    ensures t.Length == 54 * Count(xc, yc, zc)
    ensures forall k :: 0 <= k < t.Length ==> t[k] == TransformAt(xc, yc, zc, k)
  {
    var n := Count(xc, yc, zc);
    t := new int[54 * n];
    var index := 0;
    ghost var q: nat := 0;
    var z := zc;
    while z >= 1
      invariant 0 <= z <= zc && q <= n && index == 18 * q
      invariant CellAt(xc, yc, zc, q) == Cell(1, 1, z)
      invariant forall k :: 0 <= k < 3 * index ==> t[k] == TransformAt(xc, yc, zc, k)
    {
      index, q := FillLayer(t, xc, yc, zc, z, index, q);
      z := z - 1;
    }
    DrawnCells(xc, yc, zc, q);
  }

  /** The x loop: the rows of layer z, from cell (1, 1, z) at pyramid q on;
      returns the vertex index after the layer. */
  method FillLayer(t: array<int>, xc: int, yc: int, zc: int, z: int, index: int, ghost q: nat)
    returns (next: int, ghost last: nat)
    requires xc >= 1 && yc >= 1 && zc >= 1 && 1 <= z <= zc
    requires CellAt(xc, yc, zc, q) == Cell(1, 1, z) && index == 18 * q && q <= Count(xc, yc, zc)
    requires t.Length == 54 * Count(xc, yc, zc)
    requires forall k :: 0 <= k < 3 * index ==> t[k] == TransformAt(xc, yc, zc, k)
    modifies t
    ensures next == 18 * last && last <= Count(xc, yc, zc)
    ensures CellAt(xc, yc, zc, last) == Cell(1, 1, z - 1)
    ensures forall k :: 0 <= k < 3 * next ==> t[k] == TransformAt(xc, yc, zc, k)
  {
    next, last := index, q;
    var x := 1;
    while x <= xc
      invariant 1 <= x <= xc + 1 && next == 18 * last && last <= Count(xc, yc, zc)
      invariant CellAt(xc, yc, zc, last) == if x <= xc then Cell(x, 1, z) else Cell(1, 1, z - 1)
      invariant forall k :: 0 <= k < 3 * next ==> t[k] == TransformAt(xc, yc, zc, k)
    {
      next, last := FillRow(t, xc, yc, zc, x, z, next, last);
      x := x + 1;
    }
  }

  /** The y loop: the pyramids of one row, from cell (x, 1, z) at pyramid q
      to cell (x, yCount, z), each filled from vertex `index` on; returns
      the vertex index after the row. */
  method FillRow(t: array<int>, xc: int, yc: int, zc: int, x: int, z: int, index: int, ghost q: nat)
    returns (next: int, ghost last: nat)
    requires xc >= 1 && yc >= 1 && zc >= 1 && 1 <= x <= xc && 1 <= z <= zc
    requires CellAt(xc, yc, zc, q) == Cell(x, 1, z) && index == 18 * q && q <= Count(xc, yc, zc)
    requires t.Length == 54 * Count(xc, yc, zc)
    requires forall k :: 0 <= k < 3 * index ==> t[k] == TransformAt(xc, yc, zc, k)
    modifies t
    ensures next == 18 * last && last <= Count(xc, yc, zc)
    ensures CellAt(xc, yc, zc, last) == Next(xc, yc, Cell(x, yc, z))
    ensures forall k :: 0 <= k < 3 * next ==> t[k] == TransformAt(xc, yc, zc, k)
  {
    next, last := index, q;
    var y := 1;
    while y <= yc
      invariant 1 <= y <= yc + 1 && next == 18 * last && last <= Count(xc, yc, zc)
      invariant CellAt(xc, yc, zc, last) == if y <= yc then Cell(x, y, z) else Next(xc, yc, Cell(x, yc, z))
      invariant forall k :: 0 <= k < 3 * next ==> t[k] == TransformAt(xc, yc, zc, k)
    {
      DrawnCells(xc, yc, zc, last);
      FillPyramid(t, xc, yc, zc, next, last, Cell(x, y, z));
      assert CellAt(xc, yc, zc, last + 1) == Next(xc, yc, Cell(x, y, z));
      next := next + 18;
      last := last + 1;
      y := y + 1;
    }
  }

  /** The innermost loop: the 18 vertices of pyramid q, which starts at
      vertex `index` and lies in cell `c`, get the offsets of `c`. */
  method FillPyramid(t: array<int>, xc: int, yc: int, zc: int, index: int, ghost q: nat, c: Cell)
    requires CellAt(xc, yc, zc, q) == c
    requires index == 18 * q && 3 * index + 54 <= t.Length
    modifies t
    ensures forall k :: 0 <= k < t.Length ==>
      t[k] == if 3 * index <= k < 3 * index + 54
              then TransformAt(xc, yc, zc, k) else old(t[k])
  {
    var p := index;
    var i := 0;
    while i < 18
      invariant 0 <= i <= 18 && p == index + i
      invariant forall k :: 0 <= k < t.Length ==>
        t[k] == if 3 * index <= k < 3 * p then TransformAt(xc, yc, zc, k) else old(t[k])
    {
      TransformInBlock(xc, yc, zc, q, i, 0);
      TransformInBlock(xc, yc, zc, q, i, 1);
      TransformInBlock(xc, yc, zc, q, i, 2);
      t[3 * p + 0] := (c.x - 1) * 3;
      t[3 * p + 1] := (c.y - 1) * 3;
      t[3 * p + 2] := (c.z - 1) * 3;
      p := p + 1;
      i := i + 1;
    }
  }

  /** Every float of pyramid q's block, vertex v and axis a, carries the
      offset of q's cell along a: the 18 vertices of a pyramid move
      together. */
  lemma TransformInBlock(xc: int, yc: int, zc: int, q: nat, v: int, axis: int)
    requires 0 <= v < 18 && 0 <= axis < 3
    ensures TransformAt(xc, yc, zc, 54 * q + 3 * v + axis) == Offset(CellAt(xc, yc, zc, q), axis)
  {
    BlockIndex(q, v, axis);
    TransformOfPyramid(xc, yc, zc, 54 * q + 3 * v + axis, q, axis);
  }

  lemma BlockIndex(q: nat, v: int, axis: int)
    requires 0 <= v < 18 && 0 <= axis < 3
    ensures (54 * q + 3 * v + axis) / 54 == q
    ensures (54 * q + 3 * v + axis) % 3 == axis
  {
  }

  lemma TransformOfPyramid(xc: int, yc: int, zc: int, k: nat, q: nat, axis: int)
    requires k / 54 == q && k % 3 == axis
    ensures TransformAt(xc, yc, zc, k) == Offset(CellAt(xc, yc, zc, q), axis)
  {
  }

  /** The position and colour copy loops: `n` floats, cycling through the
      floats of one pyramid (54 positions or 72 colours). */
  method FillCyclic<T(0)>(template: seq<T>, n: int) returns (a: array<T>)
    requires |template| > 0 && n >= 0
    ensures fresh(a)
    ensures a.Length == n
    ensures forall k :: 0 <= k < n ==> a[k] == template[k % |template|]
  {
    var m := |template|;
    a := new T[n];
    var source := 0;
    ghost var block := 0;
    var i := 0;
    while i < n
      invariant 0 <= i <= n && 0 <= source < m && 0 <= block
      invariant i == block * m + source
      invariant forall k :: 0 <= k < i ==> a[k] == template[k % m]
    {
      DivModUnique(block, source, m);
      a[i] := template[source];
      source := source + 1;
      if source == m {
        source := 0;
        block := block + 1;
      }
      i := i + 1;
    }
  }

  /** A cyclic copy holds one full copy of the template per pyramid. */
  lemma CyclicBlock<T>(template: seq<T>, s: seq<T>, q: int)
    requires |template| > 0 && 0 <= q && (q + 1) * |template| <= |s|
    requires forall k :: 0 <= k < |s| ==> s[k] == template[k % |template|]
    ensures s[q * |template| .. (q + 1) * |template|] == template
  {
    var m := |template|;
    forall j | 0 <= j < m
      ensures s[q * m + j] == template[j]
    {
      DivModUnique(q, j, m);
      MulMonotone(q * m + j, (q + 1) * m - 1, 1);
    }
  }

}
