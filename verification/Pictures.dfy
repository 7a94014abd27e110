/** Images, their row-major layout in a device RAM, and the address arithmetic between the two. */
module Pictures {
  import opened Words

  /** An image slot: `height` rows of `width` pixels. */
  type Picture = seq<seq<u16>>

  predicate Shaped(p: Picture, width: nat, height: nat) {
    |p| == height && forall i :: 0 <= i < height ==> |p[i]| == width
  }

  /** A picture of one colour. */
  predicate Solid(p: Picture, width: nat, height: nat, v: u16) {
    && Shaped(p, width, height)
    && forall i, j :: 0 <= i < height && 0 <= j < width ==> p[i][j] == v
  }

  /** An image store with one row replaced. */
  function WithRow(pics: seq<Picture>, s: nat, i: nat, row: seq<u16>): seq<Picture>
    requires s < |pics| && i < |pics[s]|
  {
    pics[s := pics[s][i := row]]
  }

  /** An image store with one pixel replaced. */
  function WithPixel(pics: seq<Picture>, s: nat, i: nat, j: nat, v: u16): seq<Picture>
    requires s < |pics| && i < |pics[s]| && j < |pics[s][i]|
  {
    WithRow(pics, s, i, pics[s][i][j := v])
  }

  lemma WithRowPixel(pics: seq<Picture>, s: nat, i: nat, row: seq<u16>, j: nat, v: u16)
    requires s < |pics| && i < |pics[s]| && j < |row|
    ensures WithPixel(WithRow(pics, s, i, row), s, i, j, v) == WithRow(pics, s, i, row[j := v])
  {
    assert pics[s][i := row][i := row[j := v]] == pics[s][i := row[j := v]];
  }

  lemma WithPixelTwice(pics: seq<Picture>, s: nat, i: nat, j: nat, v: u16, w: u16)
    requires s < |pics| && i < |pics[s]| && j < |pics[s][i]|
    ensures WithPixel(WithPixel(pics, s, i, j, v), s, i, j, w) == WithPixel(pics, s, i, j, w)
    ensures WithPixel(pics, s, i, j, v)[s][i][j] == v
  {
    var row := pics[s][i];
    WithRowPixel(pics, s, i, row[j := v], j, w);
    assert row[j := v][j := w] == row[j := w];
  }

  /** An image store with the first n pixels of a row replaced. */
  function WithPixels(pics: seq<Picture>, s: nat, i: nat, row: seq<u16>, n: nat): (r: seq<Picture>)
    requires s < |pics| && i < |pics[s]| && n <= |row| == |pics[s][i]|
    ensures |r| == |pics| && |r[s]| == |pics[s]| && |r[s][i]| == |row|
  {
    WithRow(pics, s, i, row[..n] + pics[s][i][n..])
  }

  lemma WithPixelsSteps(pics: seq<Picture>, s: nat, i: nat, row: seq<u16>, n: nat)
    requires s < |pics| && i < |pics[s]| && n < |row| == |pics[s][i]|
    ensures WithPixel(WithPixels(pics, s, i, row, n), s, i, n, row[n]) == WithPixels(pics, s, i, row, n + 1)
  {
    var before := pics[s][i];
    WithRowPixel(pics, s, i, row[..n] + before[n..], n, row[n]);
    assert (row[..n] + before[n..])[n := row[n]] == row[..n + 1] + before[n + 1..];
  }

  lemma WithPixelsEnds(pics: seq<Picture>, s: nat, i: nat, row: seq<u16>)
    requires s < |pics| && i < |pics[s]| && |row| == |pics[s][i]|
    ensures WithPixels(pics, s, i, row, 0) == pics
    ensures WithPixels(pics, s, i, row, |row|) == WithRow(pics, s, i, row)
  {
    assert row[..|row|] + pics[s][i][|row|..] == row;
    assert row[..0] + pics[s][i][0..] == pics[s][i];
    assert pics[s][i := pics[s][i]] == pics[s];
  }

  /** An image store with the first n rows of a slot replaced. */
  function WithRows(pics: seq<Picture>, s: nat, p: Picture, n: nat): (r: seq<Picture>)
    requires s < |pics| && n <= |p| == |pics[s]|
    ensures |r| == |pics| && |r[s]| == |p|
  {
    pics[s := p[..n] + pics[s][n..]]
  }

  lemma WithRowsSteps(pics: seq<Picture>, s: nat, p: Picture, n: nat)
    requires s < |pics| && n < |p| == |pics[s]|
    ensures WithRow(WithRows(pics, s, p, n), s, n, p[n]) == WithRows(pics, s, p, n + 1)
  {
    assert (p[..n] + pics[s][n..])[n := p[n]] == p[..n + 1] + pics[s][n + 1..];
  }

  lemma WithRowsEnds(pics: seq<Picture>, s: nat, p: Picture)
    requires s < |pics| && |p| == |pics[s]|
    ensures WithRows(pics, s, p, 0) == pics && WithRows(pics, s, p, |p|) == pics[s := p]
  {
    assert p[..|p|] + pics[s][|p|..] == p;
    assert p[..0] + pics[s][0..] == pics[s];
  }

  /** The rows of a picture, one after the other. */
  function Flatten(p: Picture): seq<u16> {
    if p == [] then [] else Flatten(p[..|p| - 1]) + p[|p| - 1]
  }

  lemma {:induction false} FlattenLength(p: Picture, width: nat, height: nat)
    requires Shaped(p, width, height)
    ensures |Flatten(p)| == width * height
  {
    if height > 0 {
      FlattenLength(p[..height - 1], width, height - 1);
      assert width * height == width * (height - 1) + width;
    } else {
      assert width * height == 0;
    }
  }

  /** Pixel (i, j) is element i * width + j of the flattening, and that index is in range. */
  lemma {:induction false} FlattenAt(p: Picture, width: nat, height: nat, i: nat, j: nat)
    requires Shaped(p, width, height) && i < height && j < width
    ensures i * width + j < |Flatten(p)| == width * height
    ensures Flatten(p)[i * width + j] == p[i][j]
  {
    FlattenLength(p, width, height);
    FlattenLength(p[..height - 1], width, height - 1);
    assert width * height == width * (height - 1) + width;
    if i < height - 1 {
      FlattenAt(p[..height - 1], width, height - 1, i, j);
    } else {
      assert i * width == width * (height - 1);
    }
  }

  lemma Split(a: int, d: int, c: int)
    ensures (a + 1 + d) * c == a * c + c + d * c
  {
  }

  lemma Nonnegative(a: nat, b: nat)
    ensures a * b >= 0
  {
  }

  lemma MulMonotone(a: int, b: int, c: nat)
    ensures a < b ==> a * c + c <= b * c
  {
    if a < b {
      var d: nat := b - a - 1;
      Split(a, d, c);
      Nonnegative(d, c);
    }
  }

  /** Row i is a contiguous piece of the flattening. */
  lemma FlattenRow(p: Picture, width: nat, height: nat, i: nat)
    requires Shaped(p, width, height) && i < height
    ensures i * width + width <= |Flatten(p)| == width * height
    ensures Flatten(p)[i * width..i * width + width] == p[i]
  {
    FlattenLength(p, width, height);
    MulMonotone(i, height, width);
    forall j: nat | j < width
      ensures Flatten(p)[i * width..i * width + width][j] == p[i][j]
    {
      FlattenAt(p, width, height, i, j);
    }
  }

  /** The picture whose pixel (i, j) is at index i * width + j. */
  function Unflatten(at: nat -> u16, width: nat, height: nat): (p: Picture)
    ensures Shaped(p, width, height)
  {
    seq(height, i requires 0 <= i < height => seq(width, j requires 0 <= j < width => at(i * width + j)))
  }

  /** Cutting a flattened picture into rows again gives the picture back. */
  lemma UnflattenFlatten(p: Picture, width: nat, height: nat, at: nat -> u16)
    requires Shaped(p, width, height)
    requires forall k: nat :: k < |Flatten(p)| ==> at(k) == Flatten(p)[k]
    ensures Unflatten(at, width, height) == p
  {
    var q := Unflatten(at, width, height);
    forall i: nat | i < height
      ensures q[i] == p[i]
    {
      forall j: nat | j < width
        ensures q[i][j] == p[i][j]
      {
        FlattenAt(p, width, height, i, j);
      }
    }
  }

  lemma AreaFits(width: u16, height: u16)
    ensures 0 <= width * height < 0x1_0000_0000
  {
    MulMonotone(width, 0x1_0000, height);
  }

  /** The number of pixels, which fits the firmware's 32-bit counters. */
  function Area(width: u16, height: u16): (n: u32)
    ensures n == width * height
  {
    AreaFits(width, height);
    width * height
  }

  lemma Commute(a: int, b: int)
    ensures a * b == b * a
  {
  }

  lemma Distribute(i: int, w: int)
    ensures (i + 1) * w == i * w + w
  {
  }

  /** Quotient and remainder by the width name a pixel. */
  lemma PixelOf(k: nat, width: nat, height: nat) returns (i: nat, j: nat)
    requires k < width * height
    ensures i < height && j < width && k == i * width + j
  {
    i, j := k / width, k % width;
    assert k == width * (k / width) + k % width;
    MulMonotone(height - 1, i, width);
    assert (height - 1) * width == height * width - width;
  }

  /** Flattening inverts cutting into rows: element k is `at(k)`, for every k. */
  lemma FlattenUnflatten(at: nat -> u16, width: nat, height: nat)
    ensures |Flatten(Unflatten(at, width, height))| == width * height
    ensures forall k: nat :: k < width * height ==> Flatten(Unflatten(at, width, height))[k] == at(k)
  {
    var p := Unflatten(at, width, height);
    FlattenLength(p, width, height);
    forall k: nat | k < width * height
      ensures Flatten(p)[k] == at(k)
    {
      var i, j := PixelOf(k, width, height);
      FlattenAt(p, width, height, i, j);
    }
  }

  /** The RAM cell that the firmware's address expression j + i * width selects: the expression is computed in
      32 bits, passed as a u16, and the RAM keeps as many low bits as it has cells. */
  function CellOf(i: nat, j: nat, width: nat, cells: nat): nat
    requires cells > 0
  {
    U16(j + i * width) % cells
  }

  lemma SmallMod(a: nat, n: nat)
    requires a < n
    ensures a % n == a
  {
  }

  predicate Fits(width: nat, height: nat, cells: nat) {
    width * height <= cells
  }

  lemma InRange(i: nat, j: nat, width: nat, height: nat)
    requires i < height && j < width
    ensures i * width + j < width * height
  {
    MulMonotone(i, height, width);
  }

  /** The number of pixels before row i, without a product. */
  function RowStart(i: nat, width: nat): nat {
    if i == 0 then 0 else RowStart(i - 1, width) + width
  }

  lemma {:induction false} RowStartIs(i: nat, width: nat)
    ensures RowStart(i, width) == i * width
  {
    if i > 0 {
      RowStartIs(i - 1, width);
      Distribute(i - 1, width);
    }
  }

  lemma RowStartNext(i: nat, width: nat)
    ensures RowStart(0, width) == 0 && RowStart(i + 1, width) == RowStart(i, width) + width
  {
  }

  lemma RowInRange(i: nat, width: nat, height: nat)
    requires i < height
    ensures RowStart(i, width) + width <= RowStart(height, width)
  {
    RowStartIs(i, width);
    RowStartIs(height, width);
    MulMonotone(i, height, width);
  }

  lemma CellInRange(i: nat, j: nat, width: nat, height: nat, cells: nat)
    requires 0 < cells <= 0x1_0000 && Fits(width, height, cells) && i < height && j < width
    ensures CellOf(i, j, width, cells) == i * width + j < width * height
  {
    InRange(i, j, width, height);
    SmallMod(i * width + j, 0x1_0000);
    SmallMod(i * width + j, cells);
  }

  /** No two pixels of a width x height picture share a RAM cell. */
  ghost predicate Injective(width: nat, height: nat, cells: nat)
    requires cells > 0
  {
    forall i: nat, j: nat, r: nat, c: nat ::
      i < height && r < height && j < width && c < width && (i != r || j != c) ==>
        CellOf(i, j, width, cells) != CellOf(r, c, width, cells)
  }

  lemma SelfMod(n: nat)
    requires n > 0
    ensures n % n == 0
  {
  }

  /** In a picture that is too large, pixel number `cells` has the cell of pixel 0. */
  lemma SharedCell(width: nat, height: nat, cells: nat) returns (i: nat, j: nat)
    requires 0 < cells <= 0x1_0000 && !Fits(width, height, cells)
    ensures 0 < width && i < height && j < width && i * width + j == cells
    ensures CellOf(i, j, width, cells) == CellOf(0, 0, width, cells) == 0
  {
    i, j := PixelOf(cells, width, height);
    assert 0 * width == 0;
    SmallMod(0, cells);
    if cells < 0x1_0000 {
      SmallMod(cells, 0x1_0000);
      SelfMod(cells);
    }
  }

  /** The address expression gives every pixel its own cell exactly when the picture has no more pixels than the RAM
      has cells. */
  lemma InjectiveExactlyWhenFits(width: nat, height: nat, cells: nat)
    requires 0 < cells <= 0x1_0000
    ensures Injective(width, height, cells) <==> Fits(width, height, cells)
  {
    if Fits(width, height, cells) {
      forall i: nat, j: nat, r: nat, c: nat |
          i < height && r < height && j < width && c < width && (i != r || j != c)
        ensures CellOf(i, j, width, cells) != CellOf(r, c, width, cells)
      {
        CellInRange(i, j, width, height, cells);
        CellInRange(r, c, width, height, cells);
        MulMonotone(i, r, width);
        MulMonotone(r, i, width);
      }
    } else {
      var i, j := SharedCell(width, height, cells);
      assert i != 0 || j != 0 by {
        assert 0 * width == 0;
      }
    }
  }

  /** ... and when it fits, the cells used are exactly those below width * height. */
  lemma Onto(k: nat, width: nat, height: nat, cells: nat) returns (i: nat, j: nat)
    requires 0 < cells <= 0x1_0000 && Fits(width, height, cells) && k < width * height
    ensures i < height && j < width && CellOf(i, j, width, cells) == k
  {
    i, j := PixelOf(k, width, height);
    CellInRange(i, j, width, height, cells);
  }
}
