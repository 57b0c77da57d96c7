/** Laws of the integer tensor operations. */
module TensorAlgebra {
  import opened Options
  import opened Isa
  import opened State
  import opened Sums
  import opened Tensors
  import opened Semantics
  import opened Effects

  const MAX_DIM: nat := 0x7FFF_FFFF_FFFF_FFFF

  function Product(shape: seq<int>): int {
    if shape == [] then 1 else Product(shape[..|shape| - 1]) * shape[|shape| - 1]
  }

  /** Non-negative dimensions whose product is the number of data. */
  ghost predicate WellFormed(t: TensorValue) {
    (forall k :: 0 <= k < |t.shape| ==> 0 <= t.shape[k] <= MAX_DIM) && |t.data| == Product(t.shape)
  }

  predicate IsMatrix(t: TensorValue, rows: nat, cols: nat) {
    t.shape == [rows, cols] && |t.data| == rows * cols && rows <= MAX_DIM && cols <= MAX_DIM
  }

  lemma ProductOne(a: int)
    ensures Product([a]) == a
  {
    assert [a][..0] == [];
  }

  lemma ProductTwo(a: int, b: int)
    ensures Product([a, b]) == a * b
  {
    assert [a, b][..1] == [a];
    ProductOne(a);
  }

  /** A well-formed tensor of rank two is a matrix. */
  lemma RankTwo(t: TensorValue)
    requires WellFormed(t) && |t.shape| == 2
    ensures IsMatrix(t, t.shape[0], t.shape[1])
  {
    ProductTwo(t.shape[0], t.shape[1]);
    assert t.shape == [t.shape[0], t.shape[1]];
  }

  lemma DimRoundTrip(d: nat)
    requires d <= MAX_DIM
    ensures ToSize(d) == d && ToSigned(d) == d
  {
  }

  /** On matrices the product operation succeeds exactly when the inner dimensions agree. */
  lemma MatMulOfMatrices(l: TensorValue, r: TensorValue, rows: nat, inner: nat, mid: nat, cols: nat)
    requires IsMatrix(l, rows, inner) && IsMatrix(r, mid, cols)
    ensures MatMulOp(l, r) ==
      if inner == mid then Some(TensorValue([rows, cols], MatMulData(l.data, r.data, rows, inner, cols))) else None
    ensures MatMulOp(l, r).Some? ==> IsMatrix(MatMulOp(l, r).value, rows, cols)
  {
    DimRoundTrip(rows);
    DimRoundTrip(inner);
    DimRoundTrip(mid);
    DimRoundTrip(cols);
  }

  lemma TransposeOfMatrix(t: TensorValue, rows: nat, cols: nat)
    requires IsMatrix(t, rows, cols)
    ensures TransposeOp(t) == Some(TensorValue([cols, rows], TransposeData(t.data, rows, cols)))
    ensures IsMatrix(TransposeOp(t).value, cols, rows)
  {
    DimRoundTrip(rows);
    DimRoundTrip(cols);
    assert rows * cols == cols * rows;
  }

  // ----- Associativity of the matrix product. -----

  /** a[i,x] * b[x,y] * c[y,j] as a function of x and y. */
  function Triple(a: seq<int>, b: seq<int>, c: seq<int>, n: nat, m: nat, q: nat, i: nat, j: nat): (int, int) -> int {
    (x, y) => At(a, i * n + x) * At(b, x * m + y) * At(c, y * q + j)
  }

  lemma MulRegroup(x: int, y: int, z: int)
    ensures x * y * z == x * (y * z) == z * (x * y)
  {
  }

  /** Scaling row x of b * c by a[i,x] sums row x of the triples. */
  lemma ScaledRight(a: seq<int>, b: seq<int>, c: seq<int>, n: nat, m: nat, q: nat, i: nat, j: nat, x: nat)
    ensures At(a, i * n + x) * Cell(b, c, m, q)(x, j) == Sum(m, Row(Triple(a, b, c, n, m, q, i, j), x))
  {
    var s := At(a, i * n + x);
    var f, h := Products(b, c, m, q, x, j), Row(Triple(a, b, c, n, m, q, i, j), x);
    forall y | 0 <= y < m ensures h(y) == s * f(y) {
      MulRegroup(s, At(b, x * m + y), At(c, y * q + j));
    }
    SumScale(m, s, f, h);
  }

  /** Scaling column y of a * b by c[y,j] sums column y of the triples. */
  lemma ScaledLeft(a: seq<int>, b: seq<int>, c: seq<int>, n: nat, m: nat, q: nat, i: nat, j: nat, y: nat)
    ensures Cell(a, b, n, m)(i, y) * At(c, y * q + j) == Sum(n, Row(Flip(Triple(a, b, c, n, m, q, i, j)), y))
  {
    var s := At(c, y * q + j);
    var f, h := Products(a, b, n, m, i, y), Row(Flip(Triple(a, b, c, n, m, q, i, j)), y);
    forall x | 0 <= x < n ensures h(x) == s * f(x) {
      MulRegroup(At(a, i * n + x), At(b, x * m + y), s);
    }
    SumScale(n, s, f, h);
  }

  /** Entry (i, j) of a(bc) is the double sum, summed over y inside. */
  lemma RightNested(a: seq<int>, b: seq<int>, c: seq<int>, n: nat, m: nat, q: nat, i: nat, j: nat)
    requires j < q
    ensures Cell(a, MatMulData(b, c, n, m, q), n, q)(i, j)
         == Sum(n, RowSums(m, Triple(a, b, c, n, m, q, i, j)))
  {
    var bc := MatMulData(b, c, n, m, q);
    var t := Triple(a, b, c, n, m, q, i, j);
    forall x | 0 <= x < n ensures Products(a, bc, n, q, i, j)(x) == RowSums(m, t)(x) {
      GridAt(n, q, Cell(b, c, m, q), x, j);
      ScaledRight(a, b, c, n, m, q, i, j, x);
    }
    SumExt(n, Products(a, bc, n, q, i, j), RowSums(m, t));
  }

  /** Entry (i, j) of (ab)c is the same double sum, summed over x inside. */
  lemma LeftNested(a: seq<int>, b: seq<int>, c: seq<int>, p: nat, n: nat, m: nat, q: nat, i: nat, j: nat)
    requires i < p
    ensures Cell(MatMulData(a, b, p, n, m), c, m, q)(i, j)
         == Sum(m, RowSums(n, Flip(Triple(a, b, c, n, m, q, i, j))))
  {
    var ab := MatMulData(a, b, p, n, m);
    var t := Triple(a, b, c, n, m, q, i, j);
    forall y | 0 <= y < m ensures Products(ab, c, m, q, i, j)(y) == RowSums(n, Flip(t))(y) {
      GridAt(p, m, Cell(a, b, n, m), i, y);
      ScaledLeft(a, b, c, n, m, q, i, j, y);
    }
    SumExt(m, Products(ab, c, m, q, i, j), RowSums(n, Flip(t)));
  }

  lemma MatMulDataAssociative(a: seq<int>, b: seq<int>, c: seq<int>, p: nat, n: nat, m: nat, q: nat)
    ensures MatMulData(MatMulData(a, b, p, n, m), c, p, m, q) == MatMulData(a, MatMulData(b, c, n, m, q), p, n, q)
  {
    var l := MatMulData(MatMulData(a, b, p, n, m), c, p, m, q);
    var f := Cell(a, MatMulData(b, c, n, m, q), n, q);
    forall i, j | 0 <= i < p && 0 <= j < q ensures f(i, j) == At(l, i * q + j) {
      GridAt(p, q, Cell(MatMulData(a, b, p, n, m), c, m, q), i, j);
      LeftNested(a, b, c, p, n, m, q, i, j);
      RightNested(a, b, c, n, m, q, i, j);
      SumSwap(n, m, Triple(a, b, c, n, m, q, i, j));
    }
    GridIs(l, p, q, f);
  }

  /** TMatMul is associative: when both inner products exist, so do both outer ones, and they are equal. */
  lemma MatMulAssociative(a: TensorValue, b: TensorValue, c: TensorValue)
    requires WellFormed(a) && WellFormed(b) && WellFormed(c)
    ensures MatMulOp(a, b).Some? && MatMulOp(b, c).Some? ==>
      && MatMulOp(MatMulOp(a, b).value, c).Some?
      && MatMulOp(MatMulOp(a, b).value, c) == MatMulOp(a, MatMulOp(b, c).value)
  {
    if MatMulOp(a, b).Some? && MatMulOp(b, c).Some? {
      RankTwo(a);
      RankTwo(b);
      RankTwo(c);
      var p, n, m, q := a.shape[0], a.shape[1], b.shape[1], c.shape[1];
      MatMulOfMatrices(a, b, p, n, b.shape[0], m);
      MatMulOfMatrices(b, c, b.shape[0], m, c.shape[0], q);
      MatMulOfMatrices(MatMulOp(a, b).value, c, p, m, m, q);
      MatMulOfMatrices(a, MatMulOp(b, c).value, p, n, n, q);
      MatMulDataAssociative(a.data, b.data, c.data, p, n, m, q);
    }
  }

  // ----- The unit matrix, and the dot product as a matrix product. -----

  function Delta(): (int, int) -> int { (i, j) => if i == j then 1 else 0 }

  /** The unit matrix. */
  function Unit(n: nat): TensorValue { TensorValue([n, n], Grid(n, n, Delta())) }

  /** A sum with one term that is not zero. */
  lemma {:induction false} SumOfOne(n: nat, i: int, f: int -> int)
    requires forall k :: 0 <= k < n && k != i ==> f(k) == 0
    ensures Sum(n, f) == if 0 <= i < n then f(i) else 0
  {
    if n == 0 {
    } else {
      SumOfOne(n - 1, i, f);
    }
  }

  lemma UnitOnTheRight(d: seq<int>, rows: nat, cols: nat)
    requires |d| == rows * cols
    ensures MatMulData(d, Unit(cols).data, rows, cols, cols) == d
  {
    var u := Unit(cols).data;
    forall i, j | 0 <= i < rows && 0 <= j < cols ensures Cell(d, u, cols, cols)(i, j) == At(d, i * cols + j) {
      var f := Products(d, u, cols, cols, i, j);
      forall k | 0 <= k < cols ensures f(k) == if k == j then At(d, i * cols + j) else 0 {
        GridAt(cols, cols, Delta(), k, j);
      }
      SumOfOne(cols, j, f);
    }
    GridIs(d, rows, cols, Cell(d, u, cols, cols));
  }

  lemma UnitOnTheLeft(d: seq<int>, rows: nat, cols: nat)
    requires |d| == rows * cols
    ensures MatMulData(Unit(rows).data, d, rows, rows, cols) == d
  {
    var u := Unit(rows).data;
    forall i, j | 0 <= i < rows && 0 <= j < cols ensures Cell(u, d, rows, cols)(i, j) == At(d, i * cols + j) {
      var f := Products(u, d, rows, cols, i, j);
      forall k | 0 <= k < rows ensures f(k) == if k == i then At(d, i * cols + j) else 0 {
        GridAt(rows, rows, Delta(), i, k);
      }
      SumOfOne(rows, i, f);
    }
    GridIs(d, rows, cols, Cell(u, d, rows, cols));
  }

  /** The unit matrix is neutral for TMatMul on both sides. */
  lemma MatMulUnit(t: TensorValue)
    requires WellFormed(t) && |t.shape| == 2
    ensures MatMulOp(t, Unit(t.shape[1])) == Some(t) == MatMulOp(Unit(t.shape[0]), t)
  {
    RankTwo(t);
    var rows, cols := t.shape[0], t.shape[1];
    MatMulOfMatrices(t, Unit(cols), rows, cols, cols, cols);
    MatMulOfMatrices(Unit(rows), t, rows, rows, rows, cols);
    UnitOnTheRight(t.data, rows, cols);
    UnitOnTheLeft(t.data, rows, cols);
  }

  /** TTenDot is TMatMul of the first data as one row by the second as one column. */
  lemma DotIsMatMul(l: TensorValue, r: TensorValue)
    requires |l.data| == |r.data| <= MAX_DIM
    ensures DotOp(l, r).Some? && DotOp(l, r).value.shape == [1] && |DotOp(l, r).value.data| == 1
    ensures var n := |l.data|;
      MatMulOp(TensorValue([1, n], l.data), TensorValue([n, 1], r.data)) ==
        Some(TensorValue([1, 1], DotOp(l, r).value.data))
  {
    var n := |l.data|;
    var row, column := TensorValue([1, n], l.data), TensorValue([n, 1], r.data);
    MatMulOfMatrices(row, column, 1, n, n, 1);
    SumExt(n, Products(l.data, r.data, n, 1, 0, 0), DotTerms(l.data, r.data));
    assert MatMulData(l.data, r.data, 1, n, 1) == [DotData(l.data, r.data)];
  }

  // ----- Transposition. -----

  lemma TransposeAt(d: seq<int>, rows: nat, cols: nat, i: nat, j: nat)
    requires |d| == rows * cols && i < rows && j < cols
    ensures At(TransposeData(d, rows, cols), j * rows + i) == At(d, i * cols + j)
  {
    GridAt(cols, rows, Mirrored(d, cols), j, i);
  }

  lemma TransposeDataInvolutive(d: seq<int>, rows: nat, cols: nat)
    requires |d| == rows * cols
    ensures TransposeData(TransposeData(d, rows, cols), cols, rows) == d
  {
    var t := TransposeData(d, rows, cols);
    assert cols * rows == rows * cols;
    forall i, j | 0 <= i < rows && 0 <= j < cols ensures Mirrored(t, rows)(i, j) == At(d, i * cols + j) {
      TransposeAt(d, rows, cols, i, j);
    }
    GridIs(d, rows, cols, Mirrored(t, rows));
  }

  /** Entry (i, j) of a matrix is entry (j, i) of its transpose. */
  lemma TransposeEntries(t: TensorValue, i: nat, j: nat)
    requires WellFormed(t) && TransposeOp(t).Some? && i < t.shape[0] && j < t.shape[1]
    ensures var u := TransposeOp(t).value;
      u.shape == [t.shape[1], t.shape[0]] && At(u.data, j * t.shape[0] + i) == At(t.data, i * t.shape[1] + j)
  {
    RankTwo(t);
    TransposeOfMatrix(t, t.shape[0], t.shape[1]);
    TransposeAt(t.data, t.shape[0], t.shape[1], i, j);
  }

  /** TTranspose is an involution. */
  lemma TransposeInvolutive(t: TensorValue)
    requires WellFormed(t) && TransposeOp(t).Some?
    ensures TransposeOp(TransposeOp(t).value) == Some(t)
  {
    RankTwo(t);
    var rows, cols := t.shape[0], t.shape[1];
    TransposeOfMatrix(t, rows, cols);
    TransposeOfMatrix(TransposeOp(t).value, cols, rows);
    TransposeDataInvolutive(t.data, rows, cols);
  }

  /** One entry of the transposed product. */
  lemma TransposedCell(a: seq<int>, b: seq<int>, p: nat, n: nat, m: nat, j: nat, i: nat)
    requires |a| == p * n && |b| == n * m && j < m && i < p
    ensures Cell(TransposeData(b, n, m), TransposeData(a, p, n), n, p)(j, i) == Cell(a, b, n, m)(i, j)
  {
    hide TransposeData;
    var tb, ta := TransposeData(b, n, m), TransposeData(a, p, n);
    forall k | 0 <= k < n ensures Products(tb, ta, n, p, j, i)(k) == Products(a, b, n, m, i, j)(k) {
      TransposeAt(b, n, m, k, j);
      TransposeAt(a, p, n, i, k);
    }
    SumExt(n, Products(tb, ta, n, p, j, i), Products(a, b, n, m, i, j));
  }

  lemma TransposeOfProductData(a: seq<int>, b: seq<int>, p: nat, n: nat, m: nat)
    requires |a| == p * n && |b| == n * m
    ensures TransposeData(MatMulData(a, b, p, n, m), p, m)
         == MatMulData(TransposeData(b, n, m), TransposeData(a, p, n), m, n, p)
  {
    var ab := MatMulData(a, b, p, n, m);
    var l := TransposeData(ab, p, m);
    var tb, ta := TransposeData(b, n, m), TransposeData(a, p, n);
    forall j, i | 0 <= j < m && 0 <= i < p ensures Cell(tb, ta, n, p)(j, i) == At(l, j * p + i) {
      TransposeAt(ab, p, m, i, j);
      GridAt(p, m, Cell(a, b, n, m), i, j);
      TransposedCell(a, b, p, n, m, j, i);
    }
    GridIs(l, m, p, Cell(tb, ta, n, p));
  }

  /** The transpose of a product is the product of the transposes in reverse order. */
  lemma TransposeOfProduct(a: TensorValue, b: TensorValue)
    requires WellFormed(a) && WellFormed(b) && MatMulOp(a, b).Some?
    ensures TransposeOp(a).Some? && TransposeOp(b).Some?
    ensures TransposeOp(MatMulOp(a, b).value) == MatMulOp(TransposeOp(b).value, TransposeOp(a).value)
    ensures TransposeOp(MatMulOp(a, b).value).Some?
  {
    RankTwo(a);
    RankTwo(b);
    var p, n, m := a.shape[0], a.shape[1], b.shape[1];
    MatMulOfMatrices(a, b, p, n, b.shape[0], m);
    TransposeOfMatrix(a, p, n);
    TransposeOfMatrix(b, n, m);
    TransposeOfMatrix(MatMulOp(a, b).value, p, m);
    MatMulOfMatrices(TransposeOp(b).value, TransposeOp(a).value, m, n, n, p);
    TransposeOfProductData(a.data, b.data, p, n, m);
  }

  // ----- Rotation. -----

  /** Rotating the pairs twice negates every entry. */
  lemma RotateTwiceNegates(d: seq<int>, k: nat)
    requires |d| % 2 == 0 && k < |d|
    ensures |RotateData(RotateData(d))| == |d| && RotateData(RotateData(d))[k] == -d[k]
  {
  }

  // ----- Well-formedness. -----

  /** The host's floating-point unit maps data to data of the same length. */
  ghost predicate KeepsLength(fp: (Opcode, seq<int>) -> seq<int>) {
    forall op, d :: |fp(op, d)| == |d|
  }

  /** Every tensor operation that succeeds on well-formed tensors yields a well-formed tensor. */
  lemma OperationsKeepWellFormed(l: TensorValue, r: TensorValue, op: Opcode, fp: (Opcode, seq<int>) -> seq<int>)
    requires WellFormed(l) && WellFormed(r) && KeepsLength(fp)
    ensures forall mul :: VecOp(mul, l, r).Some? ==> WellFormed(VecOp(mul, l, r).value)
    ensures MatMulOp(l, r).Some? ==> WellFormed(MatMulOp(l, r).value)
    ensures DotOp(l, r).Some? ==> WellFormed(DotOp(l, r).value)
    ensures TransposeOp(l).Some? ==> WellFormed(TransposeOp(l).value)
    ensures UnaryOp(op, fp, l).Some? ==> WellFormed(UnaryOp(op, fp, l).value)
  {
    if MatMulOp(l, r).Some? {
      RankTwo(l);
      RankTwo(r);
      MatMulOfMatrices(l, r, l.shape[0], l.shape[1], r.shape[0], r.shape[1]);
      ProductTwo(l.shape[0], r.shape[1]);
    }
    if TransposeOp(l).Some? {
      RankTwo(l);
      TransposeOfMatrix(l, l.shape[0], l.shape[1]);
      ProductTwo(l.shape[1], l.shape[0]);
    }
    ProductOne(1);
  }

  ghost predicate PoolWellFormed(m: Machine) {
    forall k :: 0 <= k < |m.tensors| ==> WellFormed(m.tensors[k])
  }

  lemma BinaryKeepsPool(p: Image, m: Machine, i: Insn)
    requires PoolWellFormed(m) && KeepsLength(p.fp)
    requires FamilyOf(i.opcode) == BinaryTensor && ExecBinaryTensor(m, i).Commit?
    ensures PoolWellFormed(ExecBinaryTensor(m, i).m)
  {
    var l, r := m.tensors[m.regs[i.b] - 1], m.tensors[m.regs[i.c] - 1];
    assert WellFormed(l) && WellFormed(r);
    OperationsKeepWellFormed(l, r, i.opcode, p.fp);
    hide WellFormed, VecOp, MatMulOp, DotOp;
  }

  lemma UnaryKeepsPool(p: Image, m: Machine, i: Insn)
    requires PoolWellFormed(m) && KeepsLength(p.fp)
    requires FamilyOf(i.opcode) == UnaryTensor && ExecUnaryTensor(p, m, i).Commit?
    ensures PoolWellFormed(ExecUnaryTensor(p, m, i).m)
  {
    var t := m.tensors[m.regs[i.b] - 1];
    assert WellFormed(t);
    OperationsKeepWellFormed(t, t, i.opcode, p.fp);
    hide WellFormed, TransposeOp, UnaryOp;
  }

  lemma StepKeepsPool(p: Image, c: Config)
    requires PoolWellFormed(c.m) && KeepsLength(p.fp)
    ensures PoolWellFormed(Step(p, c).c.m)
  {
    hide Exec, Orderly, WellFormed;
    StepMachine(p, c);
    if Executing(p, c) && Step(p, c).status.Done? {
      var i := Current(p, c);
      if IsTensorFamily(FamilyOf(i.opcode)) { TensorExec(p, c.m, i); }
      if FamilyOf(i.opcode) == BinaryTensor { BinaryKeepsPool(p, c.m, i); }
      else if FamilyOf(i.opcode) == UnaryTensor { UnaryKeepsPool(p, c.m, i); }
      else { OtherKeepsTensors(i, c.m, Exec(p, c.m, i)); }
    }
  }

  lemma TensorExec(p: Image, m: Machine, i: Insn)
    ensures FamilyOf(i.opcode) == BinaryTensor ==> Exec(p, m, i) == ExecBinaryTensor(m, i)
    ensures FamilyOf(i.opcode) == UnaryTensor ==> Exec(p, m, i) == ExecUnaryTensor(p, m, i)
  {
  }

  lemma OtherKeepsTensors(i: Insn, m: Machine, o: Outcome)
    requires !IsTensorFamily(FamilyOf(i.opcode)) && o.Commit? && Orderly(i, m, o)
    ensures o.m.tensors == m.tensors
  {
  }

  /** Whatever tensors the host provides, every run keeps the tensor pool well formed. */
  lemma {:induction false} TensorPoolStaysWellFormed(p: Image, c: Config, n: nat)
    requires PoolWellFormed(c.m) && KeepsLength(p.fp)
    ensures PoolWellFormed(Run(p, c, n).m)
  {
    hide Step, PoolWellFormed, KeepsLength;
    if n == 0 {
    } else {
      TensorPoolStaysWellFormed(p, c, n - 1);
      StepKeepsPool(p, Run(p, c, n - 1));
    }
  }
}
