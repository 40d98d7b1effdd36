/**
  How the backends describe the layout of a batch to their libraries: PocketFFT by byte strides and buffer extents,
  AOCL and ArmPL by distances between rows and scalar counts.
 */
module StrideLayout {
  import opened Buffers

  datatype FftType = Complex | RealToComplex | ComplexToReal

  /** One side of a PocketFFT plan: the byte strides of the {batch, N} shape and the extent of the buffer. */
  datatype Strides = Strides(outer: nat, inner: nat, bytes: nat)

  /**
    One side of an AOCL or ArmPL plan: the distance between rows and the stride within a row, both in elements, and the
    buffer's scalar count.
   */
  datatype Distances = Distances(dist: nat, stride: nat, scalars: nat)

  /** The sides' elements per row and bytes per element, as the public contract fixes them. */
  datatype Shape = Shape(rowElements: nat, elementBytes: nat)

  /** `rb` is sizeof(Real); a complex number is two of them. */
  function PocketInput(t: FftType, n: nat, batch: nat, rb: nat): Strides {
    var cb, bins := 2 * rb, n / 2 + 1;
    match t
    case Complex => Strides(n * cb, cb, n * batch * cb)
    case RealToComplex => Strides(n * rb, rb, n * batch * rb)
    case ComplexToReal => Strides(bins * cb, cb, bins * batch * cb)
  }

  function PocketOutput(t: FftType, n: nat, batch: nat, rb: nat): Strides {
    var cb, bins := 2 * rb, n / 2 + 1;
    match t
    case Complex => PocketInput(t, n, batch, rb)
    case RealToComplex => Strides(bins * cb, cb, bins * batch * cb)
    case ComplexToReal => Strides(n * rb, rb, n * batch * rb)
  }

  function VendorInput(t: FftType, n: nat, batch: nat): Distances {
    var bins := n / 2 + 1;
    match t
    case Complex => Distances(n, 1, n * batch * 2)
    case RealToComplex => Distances(n, 1, n * batch)
    case ComplexToReal => Distances(bins, 1, bins * batch * 2)
  }

  function VendorOutput(t: FftType, n: nat, batch: nat): Distances {
    var bins := n / 2 + 1;
    match t
    case Complex => Distances(n, 1, n * batch * 2)
    case RealToComplex => Distances(bins, 1, bins * batch * 2)
    case ComplexToReal => Distances(n, 1, n * batch)
  }

  function InputShape(t: FftType, n: nat, rb: nat): Shape {
    match t
    case Complex => Shape(n, 2 * rb)
    case RealToComplex => Shape(n, rb)
    case ComplexToReal => Shape(n / 2 + 1, 2 * rb)
  }

  function OutputShape(t: FftType, n: nat, rb: nat): Shape {
    match t
    case Complex => Shape(n, 2 * rb)
    case RealToComplex => Shape(n / 2 + 1, 2 * rb)
    case ComplexToReal => Shape(n, rb)
  }

  // ----- addresses -----

  /** One byte of one element of one row. */
  datatype Cell = Cell(row: nat, element: nat, byte: nat)

  predicate InShape(shape: Shape, batch: nat, c: Cell) {
    c.row < batch && c.element < shape.rowElements && c.byte < shape.elementBytes
  }

  function Address(s: Strides, c: Cell): nat {
    c.row * s.outer + c.element * s.inner + c.byte
  }

  function Locate(shape: Shape, q: nat): Cell
    requires shape.rowElements >= 1 && shape.elementBytes >= 1
  {
    var slot := q / shape.elementBytes;
    Cell(slot / shape.rowElements, slot % shape.rowElements, q % shape.elementBytes)
  }

  lemma DivModUnique(q: nat, d: nat, k: nat, r: nat)
    requires q == k * d + r && r < d
    ensures q / d == k && q % d == r
  {
    var k', r' := q / d, q % d;
    assert q == k' * d + r';
    assert (k - k') * d == r' - r;
    SmallDifference(k, k', d);
  }

  lemma SmallDifference(k: nat, j: nat, d: nat)
    requires d >= 1 && -(d as int) < (k - j) * d < d
    ensures k == j
  {
    if k > j {
      assert (k - j) * d == d + (k - j - 1) * d;
      NonNegative(k - j - 1, d);
    } else if j > k {
      assert (k - j) * d == -(d as int) - (j - k - 1) * d;
      NonNegative(j - k - 1, d);
    }
  }

  lemma NonNegative(a: nat, b: nat)
    ensures a * b >= 0
  {}

  /** A mixed-radix number below its bound. */
  lemma BelowBound(row: nat, batch: nat, n: nat, rest: nat)
    requires row < batch && rest < n
    ensures row * n + rest < batch * n
  {
    assert batch * n == row * n + n + (batch - row - 1) * n;
    NonNegative(batch - row - 1, n);
  }

  ghost predicate Describes(s: Strides, shape: Shape, batch: nat) {
    && s.inner == shape.elementBytes
    && s.outer == shape.rowElements * shape.elementBytes
    && s.bytes == (batch * shape.rowElements) * shape.elementBytes
  }

  /** Slots are elements counted over the whole batch. */
  lemma AddressBySlot(s: Strides, shape: Shape, batch: nat, c: Cell)
    requires Describes(s, shape, batch)
    ensures Address(s, c) == (c.row * shape.rowElements + c.element) * shape.elementBytes + c.byte
  {
    assert c.row * (shape.rowElements * shape.elementBytes) == (c.row * shape.rowElements) * shape.elementBytes;
  }

  /** Every cell has an address in the buffer, and the address determines the cell. */
  lemma CellsAreDistinct(s: Strides, shape: Shape, batch: nat, c: Cell)
    requires Describes(s, shape, batch) && InShape(shape, batch, c)
    ensures Address(s, c) < s.bytes
    ensures Locate(shape, Address(s, c)) == c
  {
    AddressBySlot(s, shape, batch, c);
    var slot := c.row * shape.rowElements + c.element;
    BelowBound(c.row, batch, shape.rowElements, c.element);
    BelowBound(slot, batch * shape.rowElements, shape.elementBytes, c.byte);
    DivModUnique(Address(s, c), shape.elementBytes, slot, c.byte);
    DivModUnique(slot, shape.rowElements, c.row, c.element);
    hide Address;
  }

  lemma QuotientBelow(q: nat, d: nat, bound: nat)
    requires d >= 1 && q < bound * d
    ensures q / d < bound
  {
    var k, r := q / d, q % d;
    assert q == k * d + r;
    if bound <= k {
      MulMonotonic(bound, k, d);
    }
  }

  /** Every byte of the buffer belongs to a cell. */
  lemma CellsFillTheBuffer(s: Strides, shape: Shape, batch: nat, q: nat)
    requires Describes(s, shape, batch) && shape.rowElements >= 1 && shape.elementBytes >= 1 && q < s.bytes
    ensures InShape(shape, batch, Locate(shape, q))
    ensures Address(s, Locate(shape, q)) == q
  {
    var slot := q / shape.elementBytes;
    QuotientBelow(q, shape.elementBytes, batch * shape.rowElements);
    QuotientBelow(slot, shape.rowElements, batch);
    AddressBySlot(s, shape, batch, Locate(shape, q));
    assert slot == (slot / shape.rowElements) * shape.rowElements + slot % shape.rowElements;
    assert q == slot * shape.elementBytes + q % shape.elementBytes;
    hide Address, Describes;
  }

  lemma Reorder(n: nat, batch: nat, b: nat)
    ensures n * batch * b == (batch * n) * b
  {}

  lemma PocketDescribes(t: FftType, n: nat, batch: nat, rb: nat)
    ensures Describes(PocketInput(t, n, batch, rb), InputShape(t, n, rb), batch)
    ensures Describes(PocketOutput(t, n, batch, rb), OutputShape(t, n, rb), batch)
  {
    Reorder(n, batch, rb);
    Reorder(n, batch, 2 * rb);
    Reorder(n / 2 + 1, batch, 2 * rb);
  }

  ghost predicate IsCellByte(s: Strides, shape: Shape, batch: nat, q: nat) {
    exists c :: InShape(shape, batch, c) && Address(s, c) == q
  }

  /** Cells and buffer bytes correspond one to one. */
  ghost predicate Tiles(s: Strides, shape: Shape, batch: nat) {
    && (forall q: nat :: IsCellByte(s, shape, batch, q) <==> q < s.bytes)
    && (forall c, d :: InShape(shape, batch, c) && InShape(shape, batch, d) ==>
          Address(s, c) == Address(s, d) ==> c == d)
  }

  lemma DescribedTiles(s: Strides, shape: Shape, batch: nat)
    requires Describes(s, shape, batch) && shape.rowElements >= 1 && shape.elementBytes >= 1
    ensures Tiles(s, shape, batch)
  {
    hide Address, Describes, InShape, Locate;
    forall q: nat
      ensures IsCellByte(s, shape, batch, q) <==> q < s.bytes
    {
      if q < s.bytes {
        CellsFillTheBuffer(s, shape, batch, q);
      } else if c :| InShape(shape, batch, c) && Address(s, c) == q {
        CellsAreDistinct(s, shape, batch, c);
      }
    }
    forall c, d | InShape(shape, batch, c) && InShape(shape, batch, d) && Address(s, c) == Address(s, d)
      ensures c == d
    {
      CellsAreDistinct(s, shape, batch, c);
      CellsAreDistinct(s, shape, batch, d);
    }
  }

  /**
    For every type, length, batch and precision the byte strides send the elements of the batch to disjoint cells that
    fill the buffers exactly.
   */
  lemma PocketBuffersAreTiled(t: FftType, n: nat, batch: nat, rb: nat)
    requires n >= 1 && rb >= 1
    ensures Tiles(PocketInput(t, n, batch, rb), InputShape(t, n, rb), batch)
    ensures Tiles(PocketOutput(t, n, batch, rb), OutputShape(t, n, rb), batch)
  {
    PocketDescribes(t, n, batch, rb);
    DescribedTiles(PocketInput(t, n, batch, rb), InputShape(t, n, rb), batch);
    DescribedTiles(PocketOutput(t, n, batch, rb), OutputShape(t, n, rb), batch);
    hide Tiles, Describes;
  }

  /**
    Spelled out for two bytes of two elements of the batch: each has an address inside the buffer, and no two share one.
    A row has N/2+1 elements on the side of the bins and N on every other; elements of the real side have `rb` bytes.
   */
  lemma BytesDoNotCollide(t: FftType, n: nat, batch: nat, rb: nat, c: Cell, d: Cell)
    requires c.row < batch && d.row < batch
    ensures var len, size := if t == ComplexToReal then n / 2 + 1 else n, if t == RealToComplex then rb else 2 * rb;
            var s := PocketInput(t, n, batch, rb);
            c.element < len && c.byte < size && d.element < len && d.byte < size ==>
              && c.row * s.outer + c.element * s.inner + c.byte < s.bytes
              && (c.row * s.outer + c.element * s.inner + c.byte == d.row * s.outer + d.element * s.inner + d.byte
                  ==> c == d)
    ensures var len, size := if t == RealToComplex then n / 2 + 1 else n, if t == ComplexToReal then rb else 2 * rb;
            var s := PocketOutput(t, n, batch, rb);
            c.element < len && c.byte < size && d.element < len && d.byte < size ==>
              && c.row * s.outer + c.element * s.inner + c.byte < s.bytes
              && (c.row * s.outer + c.element * s.inner + c.byte == d.row * s.outer + d.element * s.inner + d.byte
                  ==> c == d)
  {
    PocketDescribes(t, n, batch, rb);
    BytesOfSide(PocketInput(t, n, batch, rb), InputShape(t, n, rb), batch, c, d);
    BytesOfSide(PocketOutput(t, n, batch, rb), OutputShape(t, n, rb), batch, c, d);
    hide Describes, PocketInput, PocketOutput;
  }

  lemma BytesOfSide(s: Strides, shape: Shape, batch: nat, c: Cell, d: Cell)
    requires Describes(s, shape, batch) && c.row < batch && d.row < batch
    ensures c.element < shape.rowElements && c.byte < shape.elementBytes
            && d.element < shape.rowElements && d.byte < shape.elementBytes ==>
              && c.row * s.outer + c.element * s.inner + c.byte < s.bytes
              && (c.row * s.outer + c.element * s.inner + c.byte == d.row * s.outer + d.element * s.inner + d.byte
                  ==> c == d)
  {
    if InShape(shape, batch, c) && InShape(shape, batch, d) {
      CellsAreDistinct(s, shape, batch, c);
      CellsAreDistinct(s, shape, batch, d);
    }
    hide Describes, Locate;
  }

  /** Where a library that counts in elements finds a byte. */
  function VendorAddress(d: Distances, elementBytes: nat, c: Cell): nat {
    (c.row * d.dist + c.element * d.stride) * elementBytes + c.byte
  }

  lemma Rescaled(row: nat, element: nat, dist: nat, bytes: nat)
    ensures row * (dist * bytes) + element * bytes == (row * dist + element * 1) * bytes
  {}

  lemma Doubled(a: nat, rb: nat)
    ensures a * (2 * rb) == (a * 2) * rb
  {}

  /**
    AOCL's and ArmPL's distances and strides lead to the same byte of the same buffer as PocketFFT's byte strides, for
    every byte of every element of every row, and their scalar counts are the same extents.
   */
  lemma VendorsAgree(t: FftType, n: nat, batch: nat, rb: nat, c: Cell)
    ensures Address(PocketInput(t, n, batch, rb), c)
         == VendorAddress(VendorInput(t, n, batch), InputShape(t, n, rb).elementBytes, c)
    ensures Address(PocketOutput(t, n, batch, rb), c)
         == VendorAddress(VendorOutput(t, n, batch), OutputShape(t, n, rb).elementBytes, c)
    ensures PocketInput(t, n, batch, rb).bytes == VendorInput(t, n, batch).scalars * rb
    ensures PocketOutput(t, n, batch, rb).bytes == VendorOutput(t, n, batch).scalars * rb
    ensures PocketInput(t, n, batch, rb).outer == VendorInput(t, n, batch).dist * InputShape(t, n, rb).elementBytes
    ensures PocketOutput(t, n, batch, rb).outer == VendorOutput(t, n, batch).dist * OutputShape(t, n, rb).elementBytes
  {
    Rescaled(c.row, c.element, n, 2 * rb);
    Rescaled(c.row, c.element, n, rb);
    Rescaled(c.row, c.element, n / 2 + 1, 2 * rb);
    Doubled(n * batch, rb);
    Doubled((n / 2 + 1) * batch, rb);
  }
}
