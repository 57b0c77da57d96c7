/** Finite sums over an index range. */
module Sums {
  function Sum(n: nat, f: int -> int): int {
    if n == 0 then 0 else Sum(n - 1, f) + f(n - 1)
  }

  lemma {:induction false} SumExt(n: nat, f: int -> int, g: int -> int)
    requires forall k :: 0 <= k < n ==> f(k) == g(k)
    ensures Sum(n, f) == Sum(n, g)
  {
    if n == 0 {
    } else {
      SumExt(n - 1, f, g);
    }
  }

  lemma {:induction false} SumAdd(n: nat, f: int -> int, g: int -> int, h: int -> int)
    requires forall k :: 0 <= k < n ==> h(k) == f(k) + g(k)
    ensures Sum(n, h) == Sum(n, f) + Sum(n, g)
  {
    if n == 0 {
    } else {
      SumAdd(n - 1, f, g, h);
    }
  }

  lemma {:induction false} SumScale(n: nat, x: int, f: int -> int, h: int -> int)
    requires forall k :: 0 <= k < n ==> h(k) == x * f(k)
    ensures Sum(n, h) == x * Sum(n, f)
  {
    if n == 0 {
    } else {
      SumScale(n - 1, x, f, h);
    }
  }

  function Row(t: (int, int) -> int, i: int): int -> int { j => t(i, j) }

  function Flip(t: (int, int) -> int): (int, int) -> int { (i, j) => t(j, i) }

  /** The sums of the first `m` elements of each row. */
  function RowSums(m: nat, t: (int, int) -> int): int -> int { i => Sum(m, Row(t, i)) }

  /** Two finite sums can be exchanged. */
  lemma {:induction false} SumSwap(n: nat, m: nat, t: (int, int) -> int)
    ensures Sum(n, RowSums(m, t)) == Sum(m, RowSums(n, Flip(t)))
  {
    if n == 0 {
      SumScale(m, 0, RowSums(0, Flip(t)), RowSums(0, Flip(t)));
    } else {
      SumSwap(n - 1, m, t);
      SumExt(m, Row(t, n - 1), j => Row(Flip(t), j)(n - 1));
      SumAdd(m, RowSums(n - 1, Flip(t)), Row(t, n - 1), RowSums(n, Flip(t)));
    }
  }
}

/** The integer tensor operations: their values, and the loops that compute them. */
module Tensors {
  import opened Options
  import opened Isa
  import opened State
  import opened Sums

  function At(s: seq<int>, i: int): int { if 0 <= i < |s| then s[i] else 0 }

  /** The row-major data of a matrix given by its entries. */
  function Grid(rows: nat, cols: nat, f: (int, int) -> int): seq<int> {
    seq(rows * cols, x => if cols == 0 then 0 else f(x / cols, x % cols))
  }

  function Products(l: seq<int>, r: seq<int>, inner: int, cols: int, i: int, j: int): int -> int {
    k => At(l, i * inner + k) * At(r, k * cols + j)
  }

  /** Entry (i, j) of the matrix product: row i of `l` times column j of `r`. */
  function Cell(l: seq<int>, r: seq<int>, inner: nat, cols: nat): (int, int) -> int {
    (i, j) => Sum(inner, Products(l, r, inner, cols, i, j))
  }

  function MatMulData(l: seq<int>, r: seq<int>, rows: nat, inner: nat, cols: nat): seq<int> {
    Grid(rows, cols, Cell(l, r, inner, cols))
  }

  function Mirrored(d: seq<int>, cols: nat): (int, int) -> int { (i, j) => At(d, j * cols + i) }

  function TransposeData(d: seq<int>, rows: nat, cols: nat): seq<int> {
    Grid(cols, rows, Mirrored(d, cols))
  }

  function Pointwise(mul: bool, l: seq<int>, r: seq<int>): seq<int>
    requires |l| == |r|
  {
    seq(|l|, i requires 0 <= i < |l| => if mul then l[i] * r[i] else l[i] + r[i])
  }

  function DotTerms(l: seq<int>, r: seq<int>): int -> int { k => At(l, k) * At(r, k) }

  function DotData(l: seq<int>, r: seq<int>): int { Sum(|l|, DotTerms(l, r)) }

  /** Each pair (x, y) becomes (y, -x). */
  function RotateData(d: seq<int>): seq<int> {
    seq(|d|, i requires 0 <= i < |d| =>
      if i % 2 == 1 then -d[i - 1] else if i + 1 < |d| then d[i + 1] else d[i])
  }

  // ----- The operations; `None` is a ShapeFault. -----

  function VecOp(mul: bool, l: TensorValue, r: TensorValue): Option<TensorValue> {
    if |l.shape| != 1 || |r.shape| != 1 || l.shape != r.shape || |l.data| != |r.data| then None
    else Some(TensorValue(l.shape, Pointwise(mul, l.data, r.data)))
  }

  function MatMulOp(l: TensorValue, r: TensorValue): Option<TensorValue> {
    if |l.shape| != 2 || |r.shape| != 2 then None
    else
      var rows, inner := ToSize(l.shape[0]), ToSize(l.shape[1]);
      var rhsInner, cols := ToSize(r.shape[0]), ToSize(r.shape[1]);
      if inner != rhsInner || |l.data| != rows * inner || |r.data| != rhsInner * cols then None
      else Some(TensorValue([ToSigned(rows), ToSigned(cols)], MatMulData(l.data, r.data, rows, inner, cols)))
  }

  function DotOp(l: TensorValue, r: TensorValue): Option<TensorValue> {
    if |l.data| != |r.data| then None else Some(TensorValue([1], [DotData(l.data, r.data)]))
  }

  function TransposeOp(t: TensorValue): Option<TensorValue> {
    if |t.shape| != 2 then None
    else
      var rows, cols := ToSize(t.shape[0]), ToSize(t.shape[1]);
      if |t.data| != rows * cols then None
      else Some(TensorValue([ToSigned(cols), ToSigned(rows)], TransposeData(t.data, rows, cols)))
  }

  function UnaryOp(op: Opcode, fp: (Opcode, seq<int>) -> seq<int>, t: TensorValue): Option<TensorValue> {
    if op.TRoPE? then
      if |t.data| % 2 != 0 then None else Some(TensorValue(t.shape, RotateData(t.data)))
    else if (op.TSoftmax? || op.TRMSNorm?) && t.data == [] then None
    else Some(TensorValue(t.shape, fp(op, t.data)))
  }

  // ----- Row-major indexing. -----

  lemma IndexBound(i: int, j: int, rows: nat, cols: nat)
    requires 0 <= i < rows && 0 <= j < cols
    ensures 0 <= i * cols + j < rows * cols
  {
    assert i * cols <= (rows - 1) * cols;
    assert (rows - 1) * cols == rows * cols - cols;
  }

  lemma MulLower(d: int, c: nat)
    ensures d >= 1 ==> d * c >= c
    ensures d <= -1 ==> d * c <= 0 - c
  {
    if d >= 1 { assert (d - 1) * c >= 0; }
    if d <= -1 { assert (-1 - d) * c >= 0; }
  }

  lemma DivModOf(i: int, j: int, cols: nat)
    requires 0 <= j < cols
    ensures (i * cols + j) / cols == i && (i * cols + j) % cols == j
  {
    var x := i * cols + j;
    var d := x / cols - i;
    assert x == (x / cols) * cols + x % cols;
    assert d * cols == j - x % cols;
    MulLower(d, cols);
  }

  lemma SplitIndex(x: int, rows: nat, cols: nat)
    requires 0 <= x < rows * cols
    ensures cols > 0 && 0 <= x / cols < rows && 0 <= x % cols < cols && (x / cols) * cols + x % cols == x
  {
    var d := x / cols - rows + 1;
    assert d * cols == (x / cols) * cols - rows * cols + cols;
    MulLower(d, cols);
  }

  lemma GridAt(rows: nat, cols: nat, f: (int, int) -> int, i: int, j: int)
    requires 0 <= i < rows && 0 <= j < cols
    ensures At(Grid(rows, cols, f), i * cols + j) == f(i, j)
  {
    IndexBound(i, j, rows, cols);
    DivModOf(i, j, cols);
  }

  /** A row-major sequence is the grid of its entries. */
  lemma GridIs(d: seq<int>, rows: nat, cols: nat, f: (int, int) -> int)
    requires |d| == rows * cols
    requires forall i, j :: 0 <= i < rows && 0 <= j < cols ==> f(i, j) == At(d, i * cols + j)
    ensures d == Grid(rows, cols, f)
  {
    forall x | 0 <= x < |d| ensures d[x] == Grid(rows, cols, f)[x] {
      SplitIndex(x, rows, cols);
      assert f(x / cols, x % cols) == At(d, (x / cols) * cols + x % cols);
    }
  }

  // ----- The loops. -----

  method PointwiseLoop(mul: bool, l: seq<int>, r: seq<int>) returns (out: seq<int>)
    requires |l| == |r|
    ensures out == Pointwise(mul, l, r)
  {
    var a := new int[|l|];
    for i := 0 to a.Length
      invariant a[..i] == Pointwise(mul, l, r)[..i]
    {
      a[i] := if mul then l[i] * r[i] else l[i] + r[i];
      assert a[..i + 1] == a[..i] + [a[i]];
    }
    out := a[..];
  }

  method DotLoop(l: seq<int>, r: seq<int>) returns (sum: int)
    requires |l| == |r|
    ensures sum == DotData(l, r)
  {
    sum := 0;
    for i := 0 to |l|
      invariant sum == Sum(i, DotTerms(l, r))
    {
      sum := sum + l[i] * r[i];
    }
  }

  /** The innermost loop of TMatMul: one entry of the product. */
  method CellLoop(l: seq<int>, r: seq<int>, rows: nat, inner: nat, cols: nat, i: nat, j: nat) returns (sum: int)
    requires |l| == rows * inner && |r| == inner * cols && i < rows && j < cols
    ensures sum == Cell(l, r, inner, cols)(i, j)
  {
    sum := 0;
    for k := 0 to inner
      invariant sum == Sum(k, Products(l, r, inner, cols, i, j))
    {
      IndexBound(i, k, rows, inner);
      IndexBound(k, j, inner, cols);
      sum := sum + l[i * inner + k] * r[k * cols + j];
    }
  }

  /** The two outer loops of TMatMul, which fill the output in row-major order. */
  method MatMulLoop(l: seq<int>, r: seq<int>, rows: nat, inner: nat, cols: nat) returns (out: seq<int>)
    requires |l| == rows * inner && |r| == inner * cols
    ensures out == MatMulData(l, r, rows, inner, cols)
  {
    ghost var grid := MatMulData(l, r, rows, inner, cols);
    var a := new int[rows * cols];
    for i := 0 to rows
      invariant forall x :: 0 <= x < i * cols && x < a.Length ==> a[x] == grid[x]
    {
      MatMulRow(l, r, rows, inner, cols, i, a);
      assert (i + 1) * cols == i * cols + cols;
    }
    assert a[..] == grid;
    out := a[..];
  }

  /** One iteration of the outer loop: row `i` of the product. */
  method MatMulRow(l: seq<int>, r: seq<int>, rows: nat, inner: nat, cols: nat, i: nat, a: array<int>)
    requires |l| == rows * inner && |r| == inner * cols && i < rows && a.Length == rows * cols
    modifies a
    ensures forall x :: 0 <= x < i * cols && x < a.Length ==> a[x] == old(a[x])
    ensures forall x :: i * cols <= x < i * cols + cols && x < a.Length ==>
      a[x] == MatMulData(l, r, rows, inner, cols)[x]
  {
    ghost var f := Cell(l, r, inner, cols);
    var start := i * cols;
    for j := 0 to cols
      invariant forall x :: 0 <= x < start && x < a.Length ==> a[x] == old(a[x])
      invariant forall x :: start <= x < start + j && x < a.Length ==> a[x] == Grid(rows, cols, f)[x]
    {
      var sum := CellLoop(l, r, rows, inner, cols, i, j);
      IndexBound(i, j, rows, cols);
      GridAt(rows, cols, f, i, j);
      a[start + j] := sum;
    }
  }

  /** The double loop of TTranspose writes its output column by column. */
  method TransposeLoop(d: seq<int>, rows: nat, cols: nat) returns (out: seq<int>)
    requires |d| == rows * cols
    ensures out == TransposeData(d, rows, cols)
  {
    ghost var grid := TransposeData(d, rows, cols);
    var a := new int[|d|];
    for i := 0 to rows
      invariant forall x :: 0 <= x < |d| && rows > 0 && x % rows < i ==> a[x] == grid[x]
    {
      for j := 0 to cols
        invariant forall x :: 0 <= x < |d| && (x % rows < i || (x % rows == i && x / rows < j)) ==> a[x] == grid[x]
      {
        IndexBound(j, i, cols, rows);
        IndexBound(i, j, rows, cols);
        DivModOf(j, i, rows);
        a[j * rows + i] := d[i * cols + j];
        GridAt(cols, rows, Mirrored(d, cols), j, i);
        forall x | 0 <= x < |d| && x % rows == i && x / rows == j ensures x == j * rows + i {
          SplitIndex(x, cols, rows);
        }
      }
      forall x | 0 <= x < |d| && x % rows == i ensures x / rows < cols { SplitIndex(x, cols, rows); }
    }
    forall x | 0 <= x < |d| ensures rows > 0 && x % rows < rows { SplitIndex(x, cols, rows); }
    assert a[..] == grid;
    out := a[..];
  }

  /** The in-place pair loop of TRoPE. */
  method RotateLoop(d: seq<int>) returns (out: seq<int>)
    requires |d| % 2 == 0
    ensures out == RotateData(d)
  {
    var a := new int[|d|](i requires 0 <= i < |d| => d[i]);
    var i := 0;
    while i + 1 < a.Length
      invariant i % 2 == 0 && i <= a.Length
      invariant forall k :: 0 <= k < i ==> a[k] == RotateData(d)[k]
      invariant forall k :: i <= k < a.Length ==> a[k] == d[k]
    {
      var x, y := a[i], a[i + 1];
      a[i] := y;
      a[i + 1] := -x;
      i := i + 2;
    }
    out := a[..];
  }
}
