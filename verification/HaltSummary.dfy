/** The halt-summary tree of DM_CSRS, for any number of harts, with the widths of
    its index casts. */
module HaltSummary {

  // hartsel has 20 bits.
  const SELECTS: nat := 0x10_0000

  type HartSel = h: nat | h < SELECTS

  // The halted bit of each hart.
  type Halted = v: seq<bool> | 1 <= |v| <= SELECTS witness [false]

  // ---- What a halt summary is ----

  // Is some hart of group g halted, when `size` harts make a group?
  predicate GroupHalted(v: seq<bool>, size: nat, g: nat)
  {
    exists h: nat :: g * size <= h < g * size + size && h < |v| && v[h]
  }

  // A summary register: 32 neighbouring groups, the first one being `first`.
  predicate Summarises(sum: seq<bool>, v: seq<bool>, size: nat, first: nat)
  {
    |sum| == 32 && forall i: nat | i < 32 :: sum[i] <==> GroupHalted(v, size, first + i)
  }

  // ---- The tree ----

  // The number of 32-bit rows that hold n bits.
  function Rows(n: nat): nat
    requires n > 0
  {
    (n - 1) / 32 + 1
  }

  predicate Any(bits: seq<bool>) { exists i: nat :: i < |bits| && bits[i] }

  function Zeros(n: nat): (z: seq<bool>)
    ensures |z| == n && forall i: nat | i < n :: !z[i]
  {
    seq(n, _ => false)
  }

  // A vector padded to whole rows.
  function Padded(v: seq<bool>): (p: seq<bool>)
    requires |v| > 0
    ensures |p| == 32 * Rows(|v|)
  {
    v + Zeros(32 * Rows(|v|) - |v|)
  }

  function Row(bits: seq<bool>, k: nat): seq<bool>
    requires 32 * k + 32 <= |bits|
  {
    bits[32 * k..32 * k + 32]
  }

  // One reduction: bit k of the result is the OR of row k, for the given rows.
  method Reduce(bits: seq<bool>, rows: nat, width: nat) returns (flat: seq<bool>)
    requires 32 * rows <= |bits| && rows <= width
    ensures |flat| == width
    ensures forall k: nat | k < width :: flat[k] == (k < rows && Any(Row(bits, k)))
  {
    flat := Zeros(width);
    for k := 0 to rows
      invariant |flat| == width
      invariant forall j: nat | j < width :: flat[j] == (j < k && Any(Row(bits, j)))
    {
      flat := flat[k := Any(Row(bits, k))];
    }
  }

  // The row a summary shows; the bound it is compared with has only `width` bits.
  method Select(bits: seq<bool>, rows: nat, bound: nat, index: nat) returns (sum: seq<bool>)
    requires |bits| == 32 * rows && bound <= rows
    ensures sum == if index < bound then Row(bits, index) else Zeros(32)
  {
    sum := Zeros(32);
    if index < bound {
      sum := Row(bits, index);
    }
  }

  datatype Sums = Sums(sum0: seq<bool>, sum1: seq<bool>, sum2: seq<bool>, sum3: seq<bool>)

  // The last level runs one row too far when the harts fill their rows of 2^15
  // exactly; what the row past the end reads as is unknown.
  method LastLevel(bits: seq<bool>, harts: nat, unknown: bool) returns (flat: seq<bool>)
    requires |bits| % 32 == 0
    ensures |flat| == 32
    ensures forall k: nat | k < 32 ::
              flat[k] == (k < harts / 0x8000 + 1 && if k < |bits| / 32 then Any(Row(bits, k)) else unknown)
  {
    flat := Zeros(32);
    for k := 0 to harts / 0x8000 + 1
      invariant |flat| == 32
      invariant forall j: nat | j < 32 :: flat[j] == (j < k && if j < |bits| / 32 then Any(Row(bits, j)) else unknown)
    {
      if k < 32 {
        flat := flat[k := if k < |bits| / 32 then Any(Row(bits, k)) else unknown];
      }
    }
  }

  // ---- The levels mean what they should ----

  // A vector whose bit j says whether group j of `size` harts has a halted hart.
  predicate Marks(bits: seq<bool>, v: seq<bool>, size: nat)
  {
    |bits| * size >= |v| && forall j: nat | j < |bits| :: bits[j] <==> GroupHalted(v, size, j)
  }

  lemma PaddedMarks(v: Halted)
    ensures Marks(Padded(v), v, 1)
  {
    forall j: nat | j < |Padded(v)| ensures Padded(v)[j] <==> GroupHalted(v, 1, j) {
      if j < |v| && v[j] { assert j * 1 <= j < j * 1 + 1; }
    }
  }

  lemma Monotone(a: nat, b: nat, c: nat)
    ensures a <= b ==> a * c <= b * c
  {
  }

  // The group of the next level that a hart belongs to.
  lemma SubGroup(size: nat, k: nat, h: nat)
    requires size > 0 && k * (32 * size) <= h < k * (32 * size) + 32 * size
    ensures var j := h / size; 32 * k <= j < 32 * k + 32 && j * size <= h < j * size + size
  {
    var j := h / size;
    assert h == j * size + h % size;
    assert k * (32 * size) == (32 * k) * size;
    Monotone(j + 1, 32 * k, size);
    Monotone(32 * k + 32, j, size);
  }

  lemma SuperGroup(size: nat, k: nat, j: nat, h: nat)
    requires 32 * k <= j < 32 * k + 32 && j * size <= h < j * size + size
    ensures k * (32 * size) <= h < k * (32 * size) + 32 * size
  {
    Monotone(32 * k, j, size);
    Monotone(j + 1, 32 * k + 32, size);
    assert k * (32 * size) == (32 * k) * size;
    assert (32 * k + 32) * size == (32 * k) * size + 32 * size;
    assert (j + 1) * size == j * size + size;
  }

  lemma RowMarks(bits: seq<bool>, v: seq<bool>, size: nat, k: nat)
    requires Marks(bits, v, size) && size > 0 && 32 * k + 32 <= |bits|
    ensures Any(Row(bits, k)) <==> GroupHalted(v, 32 * size, k)
  {
    if Any(Row(bits, k)) {
      var i: nat :| i < 32 && Row(bits, k)[i];
      var j := 32 * k + i;
      assert bits[j];
      var h: nat :| j * size <= h < j * size + size && h < |v| && v[h];
      SuperGroup(size, k, j, h);
    }
    if GroupHalted(v, 32 * size, k) {
      var h: nat :| k * (32 * size) <= h < k * (32 * size) + 32 * size && h < |v| && v[h];
      SubGroup(size, k, h);
      var j := h / size;
      assert GroupHalted(v, size, j) && bits[j];
      assert Row(bits, k)[j - 32 * k];
    }
  }

  // Groups past the last hart are not halted.
  lemma BeyondHarts(v: seq<bool>, size: nat, g: nat)
    requires g * size >= |v|
    ensures !GroupHalted(v, size, g)
  {
  }

  // ---- The whole tree ----

  // Rows of a marked vector, selected by an index whose bound has lost its top bit
  // when there are as many rows as the index can count.
  lemma SelectSummarises(bits: seq<bool>, rows: nat, limit: nat, index: nat, sum: seq<bool>, v: seq<bool>, size: nat)
    requires |bits| == 32 * rows && rows <= limit && size > 0 && Marks(bits, v, size)
    requires sum == if index < (if rows == limit then 0 else rows) then Row(bits, index) else Zeros(32)
    ensures rows < limit ==> Summarises(sum, v, size, 32 * index)
    ensures rows == limit ==> sum == Zeros(32)
  {
    if rows < limit {
      forall i: nat | i < 32 ensures sum[i] <==> GroupHalted(v, size, 32 * index + i) {
        if index < rows {
          assert sum[i] == bits[32 * index + i];
        } else {
          Monotone(|bits|, 32 * index + i, size);
          BeyondHarts(v, size, 32 * index + i);
        }
      }
    }
  }

  // How many rows each level has, and when their number no longer fits the bound.
  lemma RowCounts(n: nat)
    requires 1 <= n <= SELECTS
    ensures var r0 := Rows(n); var r1 := Rows(r0); var r2 := Rows(r1);
            && 0 < r0 <= 0x8000 && (r0 == 0x8000 <==> n > 0xf_ffe0) && (r0 < 0x8000 ==> r0 % 0x8000 == r0)
            && 0 < r1 <= 0x400 && (r1 == 0x400 <==> n > 0xf_fc00) && (r1 < 0x400 ==> r1 % 0x400 == r1)
            && 0 < r2 <= 0x20 && (r2 == 0x20 <==> n > 0xf_8000) && (r2 < 0x20 ==> r2 % 0x20 == r2)
            && r2 == (n - 1) / 0x8000 + 1 && r0 <= 32 * r1 && r1 <= 32 * r2
  {
  }

  // With every hart halted, a summary that reads zero is wrong: so each of the first
  // three is right for all halted vectors only below its bound.
  lemma ZeroIsWrong(n: nat, size: nat)
    requires 1 <= n && 1 <= size
    ensures !Summarises(Zeros(32), seq(n, _ => true), size, 0)
  {
    var v := seq(n, _ => true);
    assert 0 * size <= 0 < 0 * size + size && v[0];
    assert GroupHalted(v, size, 0 + 0) && !Zeros(32)[0];
  }

  // All four summaries of one halted vector. Each shows its 32 groups as long as the
  // number of harts keeps below the bound that its index cast can count to; the last
  // one reads past the end of the tree when the harts fill whole groups of 2^15.
  method HaltSums(v: Halted, hartsel: HartSel, unknown: bool) returns (s: Sums)
    ensures |v| <= 0xf_ffe0 ==> Summarises(s.sum0, v, 1, 32 * (hartsel / 0x20))
    ensures |v| > 0xf_ffe0 ==> s.sum0 == Zeros(32)
    ensures |v| <= 0xf_fc00 ==> Summarises(s.sum1, v, 0x20, 32 * (hartsel / 0x400))
    ensures |v| > 0xf_fc00 ==> s.sum1 == Zeros(32)
    ensures |v| <= 0xf_8000 ==> Summarises(s.sum2, v, 0x400, 32 * (hartsel / 0x8000))
    ensures |v| > 0xf_8000 ==> s.sum2 == Zeros(32)
    ensures Summarises(s.sum3, v, 0x8000, 0) <==> |v| % 0x8000 != 0 || |v| == SELECTS || !unknown
  {
    hide Summarises, Marks, GroupHalted, Any, Padded, Row, Rows;
    RowCounts(|v|);
    var rows0 := Rows(|v|);
    var rows1, bits0 := Rows(rows0), Padded(v);
    var rows2 := Rows(rows1);
    PaddedMarks(v);
    var sum0 := Select(bits0, rows0, rows0 % 0x8000, hartsel / 0x20);
    SelectSummarises(bits0, rows0, 0x8000, hartsel / 0x20, sum0, v, 1);

    var bits1 := Reduce(bits0, rows0, 32 * rows1);
    ReducedMarks(bits0, rows0, bits1, v, 1);
    var sum1 := Select(bits1, rows1, rows1 % 0x400, hartsel / 0x400);
    SelectSummarises(bits1, rows1, 0x400, hartsel / 0x400, sum1, v, 32);

    var bits2 := Reduce(bits1, rows1, 32 * rows2);
    ReducedMarks(bits1, rows1, bits2, v, 32);
    var sum2 := Select(bits2, rows2, rows2 % 0x20, hartsel / 0x8000);
    SelectSummarises(bits2, rows2, 0x20, hartsel / 0x8000, sum2, v, 0x400);

    var sum3 := LastLevel(bits2, |v|, unknown);
    LastMarks(bits2, rows2, sum3, v, unknown);
    s := Sums(sum0, sum1, sum2, sum3);
  }

  lemma ReducedMarks(bits: seq<bool>, rows: nat, flat: seq<bool>, v: seq<bool>, size: nat)
    requires |bits| == 32 * rows && rows > 0 && size > 0 && Marks(bits, v, size)
    requires |flat| == 32 * Rows(rows)
    requires forall k: nat | k < |flat| :: flat[k] == (k < rows && Any(Row(bits, k)))
    ensures Marks(flat, v, 32 * size)
  {
    hide GroupHalted, Any, Row;
    Monotone(rows, |flat|, 32 * size);
    assert |bits| * size == rows * (32 * size);
    forall k: nat | k < |flat| ensures flat[k] <==> GroupHalted(v, 32 * size, k) {
      if k < rows {
        RowMarks(bits, v, size, k);
      } else {
        Monotone(rows, k, 32 * size);
        BeyondHarts(v, 32 * size, k);
      }
    }
  }

  lemma LastMarks(bits: seq<bool>, rows: nat, flat: seq<bool>, v: Halted, unknown: bool)
    requires |bits| == 32 * rows && rows == (|v| - 1) / 0x8000 + 1 && Marks(bits, v, 0x400)
    requires |flat| == 32 && forall k: nat | k < 32 ::
               flat[k] == (k < |v| / 0x8000 + 1 && if k < rows then Any(Row(bits, k)) else unknown)
    ensures Summarises(flat, v, 0x8000, 0) <==> |v| % 0x8000 != 0 || |v| == SELECTS || !unknown
  {
    hide GroupHalted, Any, Row;
    forall k: nat | k < 32 ensures k < rows ==> (flat[k] <==> GroupHalted(v, 0x8000, k))
                           ensures k >= rows ==> !GroupHalted(v, 0x8000, k)
    {
      if k < rows { RowMarks(bits, v, 0x400, k); } else { BeyondHarts(v, 0x8000, k); }
    }
    if |v| % 0x8000 == 0 && |v| != SELECTS {
      assert flat[rows] == unknown && !GroupHalted(v, 0x8000, 0 + rows);
    }
  }
}
