/** The screen canvases the observer keeps: fixed-size pixel buffers that
    tiles are pasted into in place, copied to freeze a snapshot, and scanned
    to count pixels of one colour. */
module Raster {

  newtype byte = x: int | 0 <= x < 256

  /** An RGB pixel, as the canvas stores it. */
  datatype Pixel = Pixel(r: byte, g: byte, b: byte)

  const Black := Pixel(0, 0, 0)
  const White := Pixel(255, 255, 255)

  /** A canvas's contents as a value: `g[x][y]` is the pixel in column x,
      row y, as the canvas addresses it by `(x, y)`. */
  predicate IsGrid(g: seq<seq<Pixel>>, width: nat, height: nat) {
    |g| == width && forall x :: 0 <= x < width ==> |g[x]| == height
  }

  /** The contents of a canvas that has just been created: all black. */
  function Blank(width: nat, height: nat): seq<seq<Pixel>> {
    seq(width, _ => seq(height, _ => Black))
  }

  /** The value held by the buffer `a`. */
  ghost function Grid(a: array2<Pixel>): (g: seq<seq<Pixel>>)
    reads a
    ensures IsGrid(g, a.Length0, a.Length1)
    ensures forall x, y :: 0 <= x < a.Length0 && 0 <= y < a.Length1 ==> g[x][y] == a[x, y]
  {
    seq(a.Length0, x requires 0 <= x < a.Length0 reads a =>
      seq(a.Length1, y requires 0 <= y < a.Length1 reads a => a[x, y]))
  }

  /** (x, y) lies under `tile` placed with its top-left corner at
      (left, top). */
  predicate Covers(tile: seq<seq<Pixel>>, left: nat, top: nat, x: int, y: int) {
    left <= x < left + |tile| && top <= y < top + |tile[x - left]|
  }

  /** `g` with `tile` pasted at (left, top). */
  function PasteGrid(g: seq<seq<Pixel>>, tile: seq<seq<Pixel>>, left: nat, top: nat): (r: seq<seq<Pixel>>)
    ensures |r| == |g| && forall x :: 0 <= x < |g| ==> |r[x]| == |g[x]|
  {
    seq(|g|, x requires 0 <= x < |g| =>
      seq(|g[x]|, y requires 0 <= y < |g[x]| =>
        if Covers(tile, left, top, x, y) then tile[x - left][y - top] else g[x][y]))
  }

  /** A tile together with the place it is pasted at. */
  datatype Placed = Placed(tile: seq<seq<Pixel>>, left: nat, top: nat)

  /** `g` after pasting `updates` in arrival order. */
  function PasteAll(g: seq<seq<Pixel>>, updates: seq<Placed>): (r: seq<seq<Pixel>>)
    ensures |r| == |g| && forall x :: 0 <= x < |g| ==> |r[x]| == |g[x]|
    decreases |updates|
  {
    if updates == [] then g
    else
      var u := updates[|updates| - 1];
      PasteGrid(PasteAll(g, updates[..|updates| - 1]), u.tile, u.left, u.top)
  }

  /** The pixel that (x, y) shows after `updates`: that of the last update
      covering it, or the original one when none does. */
  function LastWrite(g: seq<seq<Pixel>>, updates: seq<Placed>, x: nat, y: nat): Pixel
    requires x < |g| && y < |g[x]|
    decreases |updates|
  {
    if updates == [] then g[x][y]
    else
      var u := updates[|updates| - 1];
      if Covers(u.tile, u.left, u.top, x, y) then u.tile[x - u.left][y - u.top]
      else LastWrite(g, updates[..|updates| - 1], x, y)
  }

  /** A stream of updates pasted into a canvas leaves every pixel as the
      last update covering it wrote it (last write wins), and untouched
      where no update covers it. */
  lemma {:induction false} PasteAllLastWriteWins(g: seq<seq<Pixel>>, updates: seq<Placed>, x: nat, y: nat)
    requires x < |g| && y < |g[x]|
    ensures PasteAll(g, updates)[x][y] == LastWrite(g, updates, x, y)
    ensures (forall i :: 0 <= i < |updates| ==> !Covers(updates[i].tile, updates[i].left, updates[i].top, x, y))
            ==> PasteAll(g, updates)[x][y] == g[x][y]
    decreases |updates|
  {
    if updates != [] {
      PasteAllLastWriteWins(g, updates[..|updates| - 1], x, y);
    }
  }

  /** Pasting the same tile twice at the same place changes nothing more. */
  lemma PasteIdempotent(g: seq<seq<Pixel>>, tile: seq<seq<Pixel>>, left: nat, top: nat)
    ensures PasteGrid(PasteGrid(g, tile, left, top), tile, left, top) == PasteGrid(g, tile, left, top)
  {
    var once := PasteGrid(g, tile, left, top);
    var twice := PasteGrid(once, tile, left, top);
    forall x | 0 <= x < |g| ensures twice[x] == once[x] { }
  }

  /** Number of pixels of colour `c` in one column. */
  function CountColumn(column: seq<Pixel>, c: Pixel): nat
    decreases |column|
  {
    if column == [] then 0
    else CountColumn(column[..|column| - 1], c) + (if column[|column| - 1] == c then 1 else 0)
  }

  /** Number of pixels of colour `c` in a grid, column by column. */
  function Count(g: seq<seq<Pixel>>, c: Pixel): nat
    decreases |g|
  {
    if g == [] then 0 else Count(g[..|g| - 1], c) + CountColumn(g[|g| - 1], c)
  }

  /** All pixels of a grid, column after column. */
  function Flatten(g: seq<seq<Pixel>>): seq<Pixel>
    decreases |g|
  {
    if g == [] then [] else Flatten(g[..|g| - 1]) + g[|g| - 1]
  }

  lemma {:induction false} CountColumnIsMultiplicity(column: seq<Pixel>, c: Pixel)
    ensures CountColumn(column, c) == multiset(column)[c]
    decreases |column|
  {
    if column != [] {
      var init := column[..|column| - 1];
      CountColumnIsMultiplicity(init, c);
      assert column == init + [column[|column| - 1]];
    }
  }

  /** The count is the number of pixels exactly equal to `c`: the
      multiplicity of `c` among all pixels, and at most width * height. */
  lemma {:induction false} CountIsMultiplicity(g: seq<seq<Pixel>>, width: nat, height: nat, c: Pixel)
    requires IsGrid(g, width, height)
    ensures Count(g, c) == multiset(Flatten(g))[c]
    ensures |Flatten(g)| == width * height
    ensures Count(g, c) <= width * height
    decreases |g|
  {
    if g != [] {
      var init, last := g[..|g| - 1], g[|g| - 1];
      CountIsMultiplicity(init, width - 1, height, c);
      CountColumnIsMultiplicity(last, c);
      assert Flatten(g) == Flatten(init) + last;
      assert multiset(Flatten(g)) == multiset(Flatten(init)) + multiset(last);
      assert |Flatten(g)| == (width - 1) * height + height;
      assert (width - 1) * height + height == width * height by {
        MultiplyOut(width - 1, height);
      }
      assert multiset(Flatten(g))[c] <= |multiset(Flatten(g))|;
    }
  }

  lemma MultiplyOut(a: nat, b: nat)
    ensures a * b + b == (a + 1) * b
  {
  }

  /** Two different colours never share a pixel, so their counts add up to
      at most width * height. */
  lemma DistinctColoursBound(g: seq<seq<Pixel>>, width: nat, height: nat, c: Pixel, d: Pixel)
    requires IsGrid(g, width, height) && c != d
    ensures Count(g, c) + Count(g, d) <= width * height
  {
    CountIsMultiplicity(g, width, height, c);
    CountIsMultiplicity(g, width, height, d);
    MultiplicityPair(multiset(Flatten(g)), c, d);
  }

  lemma MultiplicityPair(m: multiset<Pixel>, c: Pixel, d: Pixel)
    requires c != d
    ensures m[c] + m[d] <= |m|
  {
    var rest := m[c := 0][d := 0];
    var cs := multiset{}[c := m[c]];
    var ds := multiset{}[d := m[d]];
    assert m == cs + ds + rest;
  }

  function Min(a: int, b: int): int {
    if a <= b then a else b
  }

  /** Image.paste: writes `tile` into `dst` at (left, top) in place,
      clipped to the buffer; every other pixel is left as it was. */
  method Paste(dst: array2<Pixel>, tile: seq<seq<Pixel>>, left: nat, top: nat)
    modifies dst
    ensures Grid(dst) == PasteGrid(old(Grid(dst)), tile, left, top)
  {
    ghost var g := Grid(dst);
    var columns := if left < dst.Length0 then Min(|tile|, dst.Length0 - left) else 0;
    for i := 0 to columns
      invariant forall x, y :: 0 <= x < dst.Length0 && 0 <= y < dst.Length1 ==>
        dst[x, y] == if x < left + i && Covers(tile, left, top, x, y) then tile[x - left][y - top] else g[x][y]
    {
      var rows := if top < dst.Length1 then Min(|tile[i]|, dst.Length1 - top) else 0;
      for j := 0 to rows
        invariant forall x, y :: 0 <= x < dst.Length0 && 0 <= y < dst.Length1 ==>
          dst[x, y] == if (x < left + i || (x == left + i && y < top + j)) && Covers(tile, left, top, x, y)
                       then tile[x - left][y - top] else g[x][y]
      {
        dst[left + i, top + j] := tile[i][j];
      }
    }
    ghost var r := PasteGrid(g, tile, left, top);
    forall x | 0 <= x < dst.Length0 ensures Grid(dst)[x] == r[x] { }
  }

  /** Image.copy: a fresh buffer with the same contents. */
  method Copy(src: array2<Pixel>) returns (dst: array2<Pixel>)
    ensures fresh(dst)
    ensures dst.Length0 == src.Length0 && dst.Length1 == src.Length1
    ensures Grid(dst) == Grid(src)
  {
    dst := new Pixel[src.Length0, src.Length1];
    for i := 0 to src.Length0
      invariant forall x, y :: 0 <= x < i && 0 <= y < src.Length1 ==> dst[x, y] == src[x, y]
    {
      for j := 0 to src.Length1
        invariant forall x, y :: 0 <= x < i && 0 <= y < src.Length1 ==> dst[x, y] == src[x, y]
        invariant forall y :: 0 <= y < j ==> dst[i, y] == src[i, y]
      {
        dst[i, j] := src[i, j];
      }
    }
    forall x | 0 <= x < src.Length0 ensures Grid(dst)[x] == Grid(src)[x] { }
  }
}
