/** The fractal NZ layout: three routines that rearrange a matrix into blocks of 16. */
module NzLayout {
  import opened Common

  /** A tensor stored row by row. */
  datatype Tensor = Tensor(shape: seq<nat>, data: seq<int>)

  function Product(shape: seq<nat>): nat {
    if shape == [] then 1 else shape[0] * Product(shape[1..])
  }

  ghost predicate Matrix(x: Tensor) {
    |x.shape| == 2 && |x.data| == x.shape[0] * x.shape[1]
  }

  lemma RoundUpFacts(x: nat, align: nat)
    requires align > 0
    ensures var blocks := (x + align - 1) / align;
      && RoundUp(x, align) == blocks * align && RoundUp(x, align) / align == blocks
      && x <= RoundUp(x, align) < x + align
  {
    var blocks := (x + align - 1) / align;
    assert x + align - 1 == blocks * align + (x + align - 1) % align;
    DivUnique(blocks * align, align, blocks, 0);
  }

  // ----- the operations the routines are made of -----

  lemma CellInside(rows: nat, cols: nat, m: nat, n: nat)
    requires m < rows && n < cols
    ensures m * cols + n < rows * cols
  {
    MulLe(m + 1, rows, cols);
  }

  /** Cell (m, n) of the matrix, zero in the padding. */
  function Cell(x: Tensor, m: nat, n: nat): int
    requires Matrix(x)
  {
    if m < x.shape[0] && n < x.shape[1] then
      CellInside(x.shape[0], x.shape[1], m, n);
      x.data[m * x.shape[1] + n]
    else 0
  }

  /** Entry `k` of the matrix stored in rows of another width. */
  function CellAt(x: Tensor, width: nat, k: nat): int
    requires Matrix(x) && width > 0
  {
    Cell(x, k / width, k % width)
  }

  /** torch.nn.functional.pad with zeros on the right and at the bottom. */
  function Pad(x: Tensor, right: nat, bottom: nat): Tensor
    requires Matrix(x)
  {
    var h, w := x.shape[0] + bottom, x.shape[1] + right;
    Tensor([h, w], if w == 0 then [] else seq(h * w, k requires 0 <= k => CellAt(x, w, k)))
  }

  /** reshape of contiguous data; None stands for the RuntimeError. */
  function Reshape(t: Tensor, shape: seq<nat>): Option<Tensor> {
    if Product(shape) == |t.data| then Some(Tensor(shape, t.data)) else None
  }

  /** Entry `k` after the axes of lengths a and b change places, c running fastest. */
  function SwapIndex(a: nat, b: nat, c: nat, k: nat): int
    requires a > 0 && c > 0
  {
    (k / c % a * b + k / c / a) * c + k % c
  }

  lemma SwapInside(a: nat, b: nat, c: nat, k: nat)
    requires a > 0 && c > 0 && k < b * a * c
    ensures 0 <= SwapIndex(a, b, c, k) < a * b * c
  {
    DivLess(k, b * a, c);
    var q := k / c;
    DivLess(q, b, a);
    CellInside(a, b, q % a, q / a);
    CellInside(a * b, c, q % a * b + q / a, k % c);
  }

  lemma DivLess(k: nat, n: nat, c: nat)
    requires c > 0 && k < n * c
    ensures k / c < n
  {
    assert k == k / c * c + k % c;
    MulCancel(k / c, n, c);
  }

  /** transpose of axes 1 and 2 of a four-dimensional tensor, made contiguous; also
      permute(0, 2, 1, 3). */
  function SwapAxes(t: Tensor): Tensor
    requires |t.shape| == 4 && t.shape[0] == 1 && |t.data| == t.shape[1] * t.shape[2] * t.shape[3]
  {
    var a, b, c := t.shape[1], t.shape[2], t.shape[3];
    if a == 0 || c == 0 then Tensor([1, b, a, c], [])
    else Tensor([1, b, a, c], seq(b * a * c, k requires 0 <= k < b * a * c =>
      SwapInside(a, b, c, k);
      t.data[SwapIndex(a, b, c, k)]))
  }

  // ----- the layout -----

  const BLOCK: nat := 16

  /** Where the NZ form of a matrix padded to `height` rows keeps row m, column n. */
  function NzIndex(height: nat, m: nat, n: nat): nat { (n / BLOCK * height + m) * BLOCK + n % BLOCK }

  function RowOf(height: nat, k: nat): nat
    requires height > 0
  {
    k / BLOCK % height
  }

  function ColumnOf(height: nat, k: nat): nat
    requires height > 0
  {
    k / BLOCK / height * BLOCK + k % BLOCK
  }

  /** The index map is a bijection between the padded cells and the flat positions. */
  lemma NzIndexThere(height: nat, blocks: nat, m: nat, n: nat)
    requires m < height && n < blocks * BLOCK
    ensures NzIndex(height, m, n) < blocks * height * BLOCK
    ensures RowOf(height, NzIndex(height, m, n)) == m && ColumnOf(height, NzIndex(height, m, n)) == n
  {
    var cell := n / BLOCK * height + m;
    DivUnique(cell, height, n / BLOCK, m);
    CellInside(blocks, height, n / BLOCK, m);
    assert NzIndex(height, m, n) / BLOCK == cell && NzIndex(height, m, n) % BLOCK == n % BLOCK;
  }

  lemma NzIndexBack(height: nat, blocks: nat, k: nat)
    requires height > 0 && k < blocks * height * BLOCK
    ensures RowOf(height, k) < height && ColumnOf(height, k) < blocks * BLOCK
    ensures NzIndex(height, RowOf(height, k), ColumnOf(height, k)) == k
  {
    var cell := k / BLOCK;
    assert cell == cell / height * height + cell % height;
    MulCancel(cell / height, blocks, height);
    assert ColumnOf(height, k) / BLOCK == cell / height && ColumnOf(height, k) % BLOCK == k % BLOCK;
  }

  /** The tensor all routines are measured against. */
  ghost predicate IsNz(t: Tensor, x: Tensor)
    requires Matrix(x)
  {
    var height, blocks := RoundUp(x.shape[0], BLOCK), (x.shape[1] + BLOCK - 1) / BLOCK;
    && t.shape == [1, blocks, height, BLOCK]
    && |t.data| == blocks * height * BLOCK
    && (height > 0 ==> forall k :: 0 <= k < |t.data| ==> t.data[k] == Cell(x, RowOf(height, k), ColumnOf(height, k)))
  }

  /** Block n1, row m, column n0 holds column 16 * n1 + n0 of row m, or padding. */
  lemma NzEntry(t: Tensor, x: Tensor, n1: nat, m: nat, n0: nat)
    requires Matrix(x) && IsNz(t, x) && n1 < t.shape[1] && m < t.shape[2] && n0 < 16
    ensures t.shape[0] == 1 && t.shape[3] == 16 && (n1 * t.shape[2] + m) * 16 + n0 < |t.data|
    ensures t.data[(n1 * t.shape[2] + m) * 16 + n0] ==
            if m < x.shape[0] && n1 * 16 + n0 < x.shape[1] then Cell(x, m, n1 * 16 + n0) else 0
  {
    var n := n1 * BLOCK + n0;
    DivUnique(n, BLOCK, n1, n0);
    NzIndexThere(t.shape[2], t.shape[1], m, n);
  }

  /** The matrix read back from its NZ form. */
  ghost function FromNz(t: Tensor, rows: nat, cols: nat): Tensor {
    if cols == 0 then Tensor([rows, cols], [])
    else Tensor([rows, cols], seq(rows * cols, k requires 0 <= k => ReadFlat(t, rows, cols, k)))
  }

  ghost function ReadNz(t: Tensor, height: nat, m: nat, n: nat): int {
    var at := NzIndex(height, m, n);
    if at < |t.data| then t.data[at] else 0
  }

  ghost function ReadFlat(t: Tensor, rows: nat, cols: nat, k: nat): int
    requires cols > 0
  {
    ReadNz(t, RoundUp(rows, BLOCK), k / cols, k % cols)
  }

  /** Nothing of the matrix is lost. */
  lemma NzRecovers(t: Tensor, x: Tensor)
    requires Matrix(x) && IsNz(t, x)
    ensures FromNz(t, x.shape[0], x.shape[1]) == x
  {
    var rows, cols := x.shape[0], x.shape[1];
    var back := FromNz(t, rows, cols);
    assert back.shape == x.shape;
    if cols > 0 {
      forall k | 0 <= k < |x.data| ensures back.data[k] == x.data[k] { FlatRecovered(t, x, k); }
    }
  }

  lemma FlatRecovered(t: Tensor, x: Tensor, k: nat)
    requires Matrix(x) && IsNz(t, x) && k < |x.data| && x.shape[1] > 0
    ensures ReadFlat(t, x.shape[0], x.shape[1], k) == x.data[k]
  {
    CellOfFlat(x, k);
    ReadCell(t, x, k / x.shape[1], k % x.shape[1]);
  }

  lemma CellOfFlat(x: Tensor, k: nat)
    requires Matrix(x) && k < |x.data| && x.shape[1] > 0
    ensures k / x.shape[1] < x.shape[0] && CellAt(x, x.shape[1], k) == x.data[k]
  {
    var rows, cols := x.shape[0], x.shape[1];
    assert k == k / cols * cols + k % cols;
    MulCancel(k / cols, rows, cols);
  }

  lemma ReadCell(t: Tensor, x: Tensor, m: nat, n: nat)
    requires Matrix(x) && IsNz(t, x) && m < x.shape[0] && n < x.shape[1]
    ensures ReadNz(t, RoundUp(x.shape[0], BLOCK), m, n) == Cell(x, m, n)
  {
    RoundUpFacts(x.shape[0], BLOCK);
    RoundUpFacts(x.shape[1], BLOCK);
    NzIndexThere(RoundUp(x.shape[0], BLOCK), t.shape[1], m, n);
  }

  /** The layout fixes every entry, so routines that reach it return the same tensor. */
  lemma NzUnique(t: Tensor, u: Tensor, x: Tensor)
    requires Matrix(x) && IsNz(t, x) && IsNz(u, x)
    ensures t == u
  {
    var height := RoundUp(x.shape[0], BLOCK);
    if height == 0 {
      assert |t.data| == 0;
    } else {
      forall k | 0 <= k < |t.data| ensures t.data[k] == u.data[k] {}
    }
  }

  // ----- padded and split into blocks -----

  /** A padded matrix holds the cells of x row by row. */
  ghost predicate Padded(data: seq<int>, x: Tensor, height: nat, width: nat)
    requires Matrix(x)
  {
    && |data| == height * width
    && (width > 0 ==> forall k :: 0 <= k < |data| ==> data[k] == CellAt(x, width, k))
  }

  /** Swapping the row axis with the block axis of a padded matrix gives the layout. */
  lemma SwapIsNz(data: seq<int>, x: Tensor, height: nat, blocks: nat)
    requires Matrix(x) && height == RoundUp(x.shape[0], BLOCK) && blocks == (x.shape[1] + BLOCK - 1) / BLOCK
    requires Padded(data, x, height, blocks * BLOCK)
    ensures |data| == height * blocks * BLOCK
    ensures IsNz(SwapAxes(Tensor([1, height, blocks, BLOCK], data)), x)
  {
    assert height * (blocks * BLOCK) == height * blocks * BLOCK;
    var t := SwapAxes(Tensor([1, height, blocks, BLOCK], data));
    assert height == 0 ==> blocks * height * BLOCK == 0;
    if height > 0 {
      forall k | 0 <= k < |t.data| ensures t.data[k] == Cell(x, RowOf(height, k), ColumnOf(height, k)) {
        SwapOfIndex(height, blocks, k);
        SwapInside(height, blocks, BLOCK, k);
        assert data[SwapIndex(height, blocks, BLOCK, k)] == CellAt(x, blocks * BLOCK, SwapIndex(height, blocks, BLOCK, k));
      }
    }
  }

  lemma SwapOfIndex(height: nat, blocks: nat, k: nat)
    requires height > 0 && k < blocks * height * BLOCK
    ensures blocks > 0 && SwapIndex(height, blocks, BLOCK, k) >= 0
    ensures SwapIndex(height, blocks, BLOCK, k) / (blocks * BLOCK) == RowOf(height, k)
    ensures SwapIndex(height, blocks, BLOCK, k) % (blocks * BLOCK) == ColumnOf(height, k)
  {
    NzIndexBack(height, blocks, k);
    var m, n := RowOf(height, k), ColumnOf(height, k);
    assert (m * blocks + k / BLOCK / height) * BLOCK + k % BLOCK == m * (blocks * BLOCK) + n;
    DivUnique(SwapIndex(height, blocks, BLOCK, k), blocks * BLOCK, m, n);
  }

  lemma ReshapeBlocks(data: seq<int>, height: nat, blocks: nat)
    requires |data| == height * (blocks * BLOCK)
    ensures Reshape(Tensor([height, blocks * BLOCK], data), [1, height, blocks, BLOCK])
         == Some(Tensor([1, height, blocks, BLOCK], data))
  {
    assert Product([BLOCK]) == BLOCK;
    assert Product([blocks, BLOCK]) == blocks * BLOCK;
    assert Product([height, blocks, BLOCK]) == height * (blocks * BLOCK);
  }

  // ----- the three routines -----

  method NdToNz2d(x: Tensor) returns (t: Tensor)
    requires Matrix(x)
    ensures IsNz(t, x)
  {
    var auxDims: seq<nat> := [1, 0, 0, 16];
    auxDims := auxDims[1 := RoundUp(x.shape[0], 16)];
    auxDims := auxDims[2 := RoundUp(x.shape[1], 16) / 16];
    RoundUpFacts(x.shape[0], 16);
    RoundUpFacts(x.shape[1], 16);
    var padDims: seq<nat> := [0, 0, 0, 0];
    padDims := padDims[1 := RoundUp(x.shape[1], 16) - x.shape[1]];
    padDims := padDims[3 := RoundUp(x.shape[0], 16) - x.shape[0]];
    PaddedAndSwapped(x, padDims[1], padDims[3], auxDims[1], auxDims[2]);
    assert auxDims == [1, auxDims[1], auxDims[2], BLOCK];
    t := SwapAxes(Reshape(Pad(x, padDims[1], padDims[3]), auxDims).value);
  }

  lemma PaddedAndSwapped(x: Tensor, right: nat, bottom: nat, height: nat, blocks: nat)
    requires Matrix(x) && height == x.shape[0] + bottom && blocks * BLOCK == x.shape[1] + right
    requires height == RoundUp(x.shape[0], BLOCK) && blocks == (x.shape[1] + BLOCK - 1) / BLOCK
    ensures var split := Reshape(Pad(x, right, bottom), [1, height, blocks, BLOCK]);
      split.Some? && |split.value.data| == height * blocks * BLOCK && split.value.shape == [1, height, blocks, BLOCK]
      && IsNz(SwapAxes(split.value), x)
  {
    var padded := Pad(x, right, bottom);
    assert blocks == 0 ==> height * (blocks * BLOCK) == 0;
    ReshapeBlocks(padded.data, height, blocks);
    SwapIsNz(padded.data, x, height, blocks);
  }

  /** Entry `k` of rows of this width comes before (row, col). */
  predicate Before(width: nat, row: nat, col: nat, k: nat)
    requires width > 0
  {
    k / width < row || (k / width == row && k % width < col)
  }

  lemma BeforeNext(width: nat, row: nat, col: nat, k: nat)
    requires col < width
    ensures Before(width, row, col + 1, k) <==> Before(width, row, col, k) || k == row * width + col
    ensures (row * width + col) / width == row && (row * width + col) % width == col
  {
    DivUnique(row * width + col, width, row, col);
    assert k == k / width * width + k % width;
  }

  /** The entries before (row, col) are copied, the others zero. */
  ghost predicate Upto(data: seq<int>, x: Tensor, width: nat, row: nat, col: nat)
    requires Matrix(x) && width > 0
  {
    forall k :: 0 <= k < |data| ==> data[k] == if Before(width, row, col, k) then CellAt(x, width, k) else 0
  }

  lemma UptoNext(data: seq<int>, x: Tensor, height: nat, width: nat, row: nat, col: nat)
    requires Matrix(x) && row < x.shape[0] <= height && col < x.shape[1] <= width && |data| == height * width
    requires Upto(data, x, width, row, col)
    ensures row * width + col < |data| && row * x.shape[1] + col < |x.data|
    ensures Upto(data[row * width + col := x.data[row * x.shape[1] + col]], x, width, row, col + 1)
  {
    CellInside(x.shape[0], x.shape[1], row, col);
    CellInside(height, width, row, col);
    var at := row * width + col;
    var next := data[at := x.data[row * x.shape[1] + col]];
    forall k: nat | k < |next| ensures next[k] == if Before(width, row, col + 1, k) then CellAt(x, width, k) else 0 {
      BeforeNext(width, row, col, k);
    }
  }

  /** One entry of the assignment. */
  method CopyEntry(buffer: array<int>, x: Tensor, height: nat, width: nat, row: nat, col: nat)
    requires Matrix(x) && row < x.shape[0] <= height && col < x.shape[1] <= width && buffer.Length == height * width
    requires Upto(buffer[..], x, width, row, col)
    modifies buffer
    ensures Upto(buffer[..], x, width, row, col + 1)
  {
    UptoNext(buffer[..], x, height, width, row, col);
    var at := row * width + col;
    ghost var next := buffer[..][at := x.data[row * x.shape[1] + col]];
    buffer[at] := x.data[row * x.shape[1] + col];
    assert buffer[..] == next;
  }

  /** One row of the assignment. */
  method CopyRow(buffer: array<int>, x: Tensor, height: nat, width: nat, row: nat)
    requires Matrix(x) && row < x.shape[0] <= height && x.shape[1] <= width && width > 0
    requires buffer.Length == height * width && Upto(buffer[..], x, width, row, 0)
    modifies buffer
    ensures Upto(buffer[..], x, width, row + 1, 0)
  {
    for col := 0 to x.shape[1]
      invariant Upto(buffer[..], x, width, row, col)
    {
      CopyEntry(buffer, x, height, width, row, col);
    }
    RowCopied(buffer[..], x, width, row);
  }

  /** The assignment of the matrix to the corner of a zeroed buffer. */
  method CopyIntoCorner(x: Tensor, height: nat, width: nat) returns (buffer: array<int>)
    requires Matrix(x) && x.shape[0] <= height && x.shape[1] <= width
    ensures Padded(buffer[..], x, height, width)
  {
    buffer := new int[height * width](i => 0);
    if width == 0 { return; }
    for row := 0 to x.shape[0]
      invariant Upto(buffer[..], x, width, row, 0)
    {
      CopyRow(buffer, x, height, width, row);
    }
    AllCopied(buffer[..], x, width);
  }

  lemma RowCopied(data: seq<int>, x: Tensor, width: nat, row: nat)
    requires Matrix(x) && x.shape[1] <= width && width > 0 && Upto(data, x, width, row, x.shape[1])
    ensures Upto(data, x, width, row + 1, 0)
  {}

  lemma AllCopied(data: seq<int>, x: Tensor, width: nat)
    requires Matrix(x) && width > 0 && Upto(data, x, width, x.shape[0], 0)
    ensures forall k :: 0 <= k < |data| ==> data[k] == CellAt(x, width, k)
  {}

  method NdToNzSpec(x: Tensor) returns (t: Tensor)
    requires Matrix(x)
    ensures IsNz(t, x)
  {
    var height := (x.shape[0] + 15) / 16 * 16;
    var width := (x.shape[1] + 15) / 16 * 16;
    RoundUpFacts(x.shape[0], 16);
    RoundUpFacts(x.shape[1], 16);
    var buffer := CopyIntoCorner(x, height, width);
    ReshapeBlocks(buffer[..], height, width / 16);
    SwapIsNz(buffer[..], x, height, width / 16);
    t := SwapAxes(Reshape(Tensor([height, width], buffer[..]), [1, height, width / 16, 16]).value);
  }

  // ----- trans_nd_to_nz -----

  /** permute(2, 0, 1, 3) of a four-dimensional tensor. */
  function PermuteIndex(m1: nat, m0: nat, n1: nat, n0: nat, k: nat): int
    requires m1 > 0 && m0 > 0 && n0 > 0
  {
    ((k / n0 / m0 % m1 * m0 + k / n0 % m0) * n1 + k / n0 / m0 / m1) * n0 + k % n0
  }

  /** Two digits read one after the other are the digits of their product. */
  lemma MergeDigits(q: nat, m1: nat, m0: nat, m: nat)
    requires m1 > 0 && m0 > 0 && m > 0 && m == m1 * m0
    ensures q / m0 % m1 * m0 + q % m0 == q % m && q / m0 / m1 == q / m
  {
    DivMod(q, m0);
    DivMod(q / m0, m1);
    DigitsMerged(q, q / m0, q / m0 / m1, q / m0 % m1, q % m0, m1, m0, m);
  }

  lemma DivMod(n: nat, k: nat)
    requires k > 0
    ensures n == n / k * k + n % k && n % k < k
  {}

  lemma DigitsMerged(q: nat, front: nat, high: nat, mid: nat, low: nat, m1: nat, m0: nat, m: nat)
    requires q == front * m0 + low && front == high * m1 + mid && mid < m1 && low < m0 && m > 0 && m == m1 * m0
    ensures q / m == high && q % m == mid * m0 + low
  {
    ThreeDigits(high, mid, low, m1, m0);
    CellInside(m1, m0, mid, low);
    DivUnique(q, m, high, mid * m0 + low);
  }

  lemma ThreeDigits(high: nat, mid: nat, low: nat, m1: nat, m0: nat)
    ensures (high * m1 + mid) * m0 + low == high * (m1 * m0) + (mid * m0 + low)
  {
    MulAssoc(high, m1, m0);
    assert (high * m1 + mid) * m0 == high * m1 * m0 + mid * m0;
  }

  lemma MulAssoc(a: nat, b: nat, c: nat)
    ensures a * (b * c) == a * b * c
  {}

  lemma PermuteIsSwap(m1: nat, m0: nat, n1: nat, n0: nat, k: nat)
    requires m1 > 0 && m0 > 0 && n0 > 0
    ensures m1 * m0 > 0 && PermuteIndex(m1, m0, n1, n0, k) == SwapIndex(m1 * m0, n1, n0, k)
  {
    MergeDigits(k / n0, m1, m0, m1 * m0);
  }

  function PermuteAt(data: seq<int>, m1: nat, m0: nat, n1: nat, n0: nat, k: nat): int
    requires |data| == m1 * m0 * n1 * n0 && m1 > 0 && m0 > 0 && n0 > 0 && k < n1 * (m1 * m0) * n0
  {
    PermuteIsSwap(m1, m0, n1, n0, k);
    SwapInside(m1 * m0, n1, n0, k);
    data[PermuteIndex(m1, m0, n1, n0, k)]
  }

  function PermuteAxes(data: seq<int>, m1: nat, m0: nat, n1: nat, n0: nat): seq<int>
    requires |data| == m1 * m0 * n1 * n0
  {
    var size := n1 * (m1 * m0) * n0;
    if m1 == 0 || m0 == 0 || n0 == 0 then []
    else seq(size, k requires 0 <= k < size => PermuteAt(data, m1, m0, n1, n0, k))
  }

  lemma ProductOfFour(a: nat, b: nat, c: nat, d: nat)
    ensures Product([a, b, c, d]) == a * b * c * d == (a * b) * (c * d)
  {
    assert Product([d]) == d;
    assert Product([c, d]) == c * d;
    assert Product([b, c, d]) == b * (c * d);
    assert a * (b * (c * d)) == (a * b) * (c * d);
    assert (a * b) * (c * d) == a * b * c * d;
  }

  /** The widths of a block: int8 data uses 32 columns. */
  function BlockWidth(int8: bool): nat { if int8 then 32 else 16 }

  // Leading axes: the last axes are rearranged for each of their indices in turn.

  lemma {:induction false} ProductAppend(front: seq<nat>, back: seq<nat>)
    ensures Product(front + back) == Product(front) * Product(back)
  {
    if front == [] {
      assert front + back == back;
    } else {
      ProductAppend(front[1..], back);
      assert (front + back)[1..] == front[1..] + back && (front + back)[0] == front[0];
      assert Product(front) == front[0] * Product(front[1..]);
      hide Product;
      MulAssoc(front[0], Product(front[1..]), Product(back));
    }
  }

  /** Part `i` of data that consists of parts of equal size. */
  function Part(data: seq<int>, size: nat, i: nat): (part: seq<int>)
    requires (i + 1) * size <= |data|
    ensures |part| == size
  {
    assert i * size + size == (i + 1) * size;
    data[i * size..i * size + size]
  }

  lemma PartInside(count: nat, size: nat, i: nat)
    requires i < count
    ensures (i + 1) * size <= count * size
  {
    MulLe(i + 1, count, size);
  }

  lemma PermuteLength(data: seq<int>, m1: nat, m0: nat, n1: nat, n0: nat)
    requires |data| == m1 * m0 * n1 * n0
    ensures |PermuteAxes(data, m1, m0, n1, n0)| == |data|
  {
    if m1 == 0 || m0 == 0 || n0 == 0 {
      assert m1 * m0 * n1 * n0 == 0;
    } else {
      var rows := m1 * m0;
      assert n1 * rows == rows * n1;
    }
  }

  /** The lengths of the last four axes. */
  datatype Axes = Axes(m1: nat, m0: nat, n1: nat, n0: nat)

  function Size(a: Axes): nat { a.m1 * a.m0 * a.n1 * a.n0 }

  function PermuteLast(data: seq<int>, axes: Axes): (r: seq<int>)
    requires |data| == Size(axes)
    ensures |r| == |data|
  {
    PermuteLength(data, axes.m1, axes.m0, axes.n1, axes.n0);
    PermuteAxes(data, axes.m1, axes.m0, axes.n1, axes.n0)
  }

  /** permute with the leading axes kept in front. */
  function PermuteEach(data: seq<int>, count: nat, axes: Axes): (r: seq<int>)
    requires |data| == count * Size(axes)
    ensures |r| == |data|
  {
    if count == 0 then []
    else
      var front := (count - 1) * Size(axes);
      assert count * Size(axes) == front + Size(axes);
      PermuteEach(data[..front], count - 1, axes) + PermuteLast(data[front..], axes)
  }

  lemma {:induction false} PermuteEachPart(data: seq<int>, count: nat, axes: Axes, i: nat)
    requires |data| == count * Size(axes) && i < count
    ensures (i + 1) * Size(axes) <= |data|
    ensures Part(PermuteEach(data, count, axes), Size(axes), i) == PermuteLast(Part(data, Size(axes), i), axes)
  {
    hide Size, PermuteLast;
    var size, at := Size(axes), (count - 1) * Size(axes);
    PartInside(count, size, i);
    assert count * size == at + size;
    var front, back := data[..at], data[at..];
    var permuted, last := PermuteEach(front, count - 1, axes), PermuteLast(back, axes);
    assert data == front + back && PermuteEach(data, count, axes) == permuted + last;
    hide PermuteEach, Part;
    if i < count - 1 {
      PermuteEachPart(front, count - 1, axes, i);
      PartOfFront(front, back, size, i);
      PartOfFront(permuted, last, size, i);
    } else {
      LastPart(front, back, size, i);
      LastPart(permuted, last, size, i);
    }
  }

  lemma LastPart(front: seq<int>, back: seq<int>, size: nat, n: nat)
    requires |front| == n * size && |back| == size
    ensures (n + 1) * size == |front + back| && Part(front + back, size, n) == back
  {}

  lemma PartOfFront(front: seq<int>, back: seq<int>, size: nat, i: nat)
    requires (i + 1) * size <= |front|
    ensures Part(front + back, size, i) == Part(front, size, i)
  {}

  datatype Outcome = AssertionError | RuntimeError | Blocks(tensor: Tensor)

  function Leading(x: Tensor): seq<nat>
    requires |x.shape| >= 2
  {
    x.shape[..|x.shape| - 2]
  }

  function Rows(x: Tensor): nat
    requires |x.shape| >= 2
  {
    x.shape[|x.shape| - 2]
  }

  function Cols(x: Tensor): nat
    requires |x.shape| >= 2
  {
    x.shape[|x.shape| - 1]
  }

  function TransNdToNz(x: Tensor, int8: bool): Outcome
    requires |x.data| == Product(x.shape)
  {
    if |x.shape| < 2 then AssertionError
    else
      var a0, b0 := 16, BlockWidth(int8);
      var n1, m1 := CeilDiv(Cols(x), b0), CeilDiv(Rows(x), a0);
      match Reshape(x, Leading(x) + [m1, a0, n1, b0])
      case None => RuntimeError
      case Some(t) =>
        ProductAppend(Leading(x), [m1, a0, n1, b0]);
        ProductOfFour(m1, a0, n1, b0);
        Blocks(Tensor(Leading(x) + [n1, m1, a0, b0], PermuteEach(t.data, Product(Leading(x)), Axes(m1, a0, n1, b0))))
  }

  lemma SidesProduct(x: Tensor)
    requires |x.shape| >= 2
    ensures Product(x.shape) == Product(Leading(x)) * (Rows(x) * Cols(x))
  {
    assert x.shape == Leading(x) + [Rows(x), Cols(x)];
    ProductAppend(Leading(x), [Rows(x), Cols(x)]);
    assert Product([Cols(x)]) == Cols(x);
    assert Product([Rows(x), Cols(x)]) == Rows(x) * Cols(x);
  }

  /** The reshape of any number of leading axes fits exactly when both sides are whole numbers
      of blocks, or there is nothing to rearrange. */
  lemma TransFits(x: Tensor, int8: bool)
    requires |x.data| == Product(x.shape)
    ensures TransNdToNz(x, int8).AssertionError? <==> |x.shape| < 2
    ensures TransNdToNz(x, int8).Blocks? <==>
      |x.shape| >= 2
      && ((Rows(x) % 16 == 0 && Cols(x) % (if int8 then 32 else 16) == 0) || x.data == [])
  {
    if |x.shape| >= 2 {
      var m1, n1 := CeilDiv(Rows(x), 16), CeilDiv(Cols(x), BlockWidth(int8));
      var blocks := [m1, 16, n1, BlockWidth(int8)];
      ProductAppend(Leading(x), blocks);
      SidesProduct(x);
      BlocksFit(Rows(x), Cols(x), BlockWidth(int8));
      var count, size, padded := Product(Leading(x)), Rows(x) * Cols(x), Product(blocks);
      SameProduct(count, size, padded);
      assert TransNdToNz(x, int8).Blocks? <==> count * padded == |x.data|;
    }
  }

  lemma SameProduct(count: nat, a: nat, b: nat)
    ensures count * a == count * b <==> a == b || count == 0
    ensures count * a == 0 <==> count == 0 || a == 0
  {
    if a < b && count > 0 { MulLe(1, b - a, count); }
    if b < a && count > 0 { MulLe(1, a - b, count); }
  }

  lemma BlocksFit(rows: nat, cols: nat, b0: nat)
    requires b0 > 0
    ensures Product([CeilDiv(rows, 16), 16, CeilDiv(cols, b0), b0]) == rows * cols <==>
      (rows % 16 == 0 && cols % b0 == 0) || rows * cols == 0
  {
    var m1, n1 := CeilDiv(rows, 16), CeilDiv(cols, b0);
    RoundUpFacts(rows, 16);
    RoundUpFacts(cols, b0);
    ProductOfFour(m1, 16, n1, b0);
    AreasEqual(rows, cols, m1 * 16, n1 * b0);
    Aligned(rows, 16, m1);
    Aligned(cols, b0, n1);
    SameProduct(rows, cols, 0);
  }

  lemma Aligned(x: nat, align: nat, blocks: nat)
    requires align > 0 && x <= blocks * align < x + align
    ensures x % align == 0 <==> x == blocks * align
  {
    if x % align == 0 {
      var q := x / align;
      assert x == q * align && (q + 1) * align == x + align;
      MulCancel(blocks, q + 1, align);
      MulLe(blocks, q, align);
    } else if x == blocks * align {
      DivUnique(x, align, blocks, 0);
    }
  }

  lemma AreasEqual(a: nat, b: nat, c: nat, d: nat)
    requires a <= c && b <= d && (a == 0 ==> c == 0) && (b == 0 ==> d == 0)
    ensures a * b == c * d <==> (a == c && b == d) || a == 0 || b == 0
  {
    if a > 0 && b > 0 && !(a == c && b == d) {
      assert c * d == a * b + a * (d - b) + (c - a) * d;
      if b < d { MulLe(1, a, d - b); } else { MulLe(1, c - a, d); }
    } else if a == 0 {
      assert a * b == 0 && c * d == 0;
    } else if b == 0 {
      assert a * b == 0 && c * d == 0;
    }
  }

  /** The permuted blocks of a matrix of whole blocks, of any width b0: entry n0 of `row` in
      block column `block` is the cell in that row and column b0 * block + n0. */
  lemma BlockEntry(data: seq<int>, m1: nat, n1: nat, b0: nat, row: nat, block: nat, n0: nat, at: nat, from: nat)
    requires |data| == m1 * 16 * n1 * b0 && row < m1 * 16 && block < n1 && n0 < b0
    requires at == (block * (m1 * 16) + row) * b0 + n0 && from == row * (n1 * b0) + (block * b0 + n0)
    ensures at < |PermuteAxes(data, m1, 16, n1, b0)| && from < |data|
    ensures PermuteAxes(data, m1, 16, n1, b0)[at] == data[from]
  {
    var rows := m1 * 16;
    var cell := block * rows + row;
    PermuteLength(data, m1, 16, n1, b0);
    assert (row * n1 + block) * b0 + n0 == from;
    CellInside(rows, n1, row, block);
    CellInside(rows * n1, b0, row * n1 + block, n0);
    CellInside(n1, rows, block, row);
    CellInside(n1 * rows, b0, cell, n0);
    DivUnique(at, b0, cell, n0);
    DivUnique(cell, rows, block, row);
    PermuteIsSwap(m1, 16, n1, b0, at);
  }

  /** Whole blocks on both sides. */
  predicate WholeBlocks(x: Tensor, int8: bool) {
    |x.shape| >= 2 && |x.data| == Product(x.shape) && Rows(x) % 16 == 0 && Cols(x) % (if int8 then 32 else 16) == 0
  }

  /** Every matrix along the leading axes is rearranged on its own. */
  lemma TransEach(x: Tensor, int8: bool, i: nat)
    requires WholeBlocks(x, int8) && i < Product(Leading(x))
    ensures var t, size, b0 := TransNdToNz(x, int8), Rows(x) * Cols(x), if int8 then 32 else 16;
      && t.Blocks? && t.tensor.shape == Leading(x) + [Cols(x) / b0, Rows(x) / 16, 16, b0]
      && size == Rows(x) / 16 * 16 * (Cols(x) / b0) * b0 && (i + 1) * size <= |x.data| == |t.tensor.data|
      && Part(t.tensor.data, size, i) == PermuteAxes(Part(x.data, size, i), Rows(x) / 16, 16, Cols(x) / b0, b0)
  {
    var rows, cols, b0 := Rows(x), Cols(x), BlockWidth(int8);
    var m1, n1 := rows / 16, cols / b0;
    DivUnique(rows + 15, 16, m1, 15);
    DivUnique(cols + b0 - 1, b0, n1, b0 - 1);
    TransFits(x, int8);
    SidesProduct(x);
    ProductOfFour(m1, 16, n1, b0);
    assert m1 * 16 * n1 * b0 == rows * cols;
    PermuteEachPart(x.data, Product(Leading(x)), Axes(m1, 16, n1, b0), i);
  }

  /** For whole blocks of 16 columns it is the layout of every matrix, with the row axis
      split in two. */
  lemma TransIsNz(x: Tensor, i: nat)
    requires WholeBlocks(x, false) && i < Product(Leading(x))
    ensures var t, size := TransNdToNz(x, false), Rows(x) * Cols(x);
      && t.Blocks? && t.tensor.shape == Leading(x) + [Cols(x) / 16, Rows(x) / 16, 16, 16]
      && (i + 1) * size <= |x.data| == |t.tensor.data|
      && IsNz(Tensor([1, Cols(x) / 16, Rows(x), 16], Part(t.tensor.data, size, i)),
              Tensor([Rows(x), Cols(x)], Part(x.data, size, i)))
  {
    TransEach(x, false, i);
    BlocksAreNz(Tensor([Rows(x), Cols(x)], Part(x.data, Rows(x) * Cols(x), i)));
  }

  lemma BlocksAreNz(x: Tensor)
    requires Matrix(x) && x.shape[0] % 16 == 0 && x.shape[1] % 16 == 0
    ensures var m1, n1 := x.shape[0] / 16, x.shape[1] / 16;
      && |x.data| == m1 * 16 * n1 * 16
      && IsNz(Tensor([1, n1, x.shape[0], 16], PermuteAxes(x.data, m1, 16, n1, 16)), x)
  {
    var rows, cols := x.shape[0], x.shape[1];
    var m1, n1 := rows / 16, cols / 16;
    DivUnique(rows + 15, 16, m1, 15);
    DivUnique(cols + 15, 16, n1, 15);
    assert rows * (n1 * 16) == rows * n1 * 16;
    if cols > 0 {
      forall k | 0 <= k < |x.data| ensures x.data[k] == CellAt(x, cols, k) { CellOfFlat(x, k); }
    }
    SwapIsNz(x.data, x, rows, n1);
    PermutedIsSwapped(x.data, m1, n1);
  }

  lemma PermutedIsSwapped(data: seq<int>, m1: nat, n1: nat)
    requires |data| == m1 * 16 * n1 * 16
    ensures PermuteAxes(data, m1, 16, n1, 16) == SwapAxes(Tensor([1, m1 * 16, n1, BLOCK], data)).data
  {
    var t, u := PermuteAxes(data, m1, 16, n1, 16), SwapAxes(Tensor([1, m1 * 16, n1, BLOCK], data)).data;
    if m1 > 0 {
      forall k | 0 <= k < |t| ensures t[k] == u[k] { PermuteIsSwap(m1, 16, n1, 16, k); }
    }
  }
}
