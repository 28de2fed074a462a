/** The integer arithmetic behind every range split in the system:
    `Math.ceil(total / size)` rounds and pieces
    `[start + i*size, +min(size, total - i*size))`. */
module Batching {
  import opened Common

  /** A contiguous run of derivation indices `[start, start + count)`. */
  datatype Piece = Piece(start: int, count: int)

  /** `Math.ceil(a / b)` for a positive divisor. */
  function CeilDiv(a: int, b: int): (q: int)
    requires b > 0
    ensures (q - 1) * b < a <= q * b
  {
    if a >= 0 then
      var q := (a + b - 1) / b;
      assert (a + b - 1) - b < q * b <= a + b - 1;
      q
    else
      var m := (-a) / b;
      assert m * b <= -a < m * b + b;
      -m
  }

  /** The sign of a product with a positive factor is the sign of the other factor. */
  lemma ProductSign(x: int, y: int)
    requires y > 0
    ensures x > 0 <==> x * y > 0
    ensures x < 0 <==> x * y < 0
  {
  }

  /** How often `for (let i = 0; i < Math.ceil(total / size); i++)` runs.
      A zero size with a positive total makes the bound Infinity. */
  datatype Rounds = Finite(n: nat) | Unbounded

  function LoopRounds(total: int, size: int): Rounds
  {
    if size == 0 then (if total > 0 then Unbounded else Finite(0))
    else
      var q := if size > 0 then CeilDiv(total, size) else CeilDiv(-total, -size);
      Finite(if q > 0 then q else 0)
  }

  /** Piece i of a split of `total` indices from `start` into pieces of `size`. */
  function PieceAt(start: int, total: int, size: int, i: int): Piece
  {
    Piece(start + i * size, Min(size, total - i * size))
  }

  /** The first n pieces, in loop order. */
  function Pieces(start: int, total: int, size: int, n: nat): (ps: seq<Piece>)
    ensures |ps| == n
    ensures forall i :: 0 <= i < n ==> ps[i] == PieceAt(start, total, size, i)
  {
    seq(n, i => PieceAt(start, total, size, i))
  }

  /** The indices the pieces name, in order. */
  function Indices(ps: seq<Piece>): seq<int>
  {
    if ps == [] then [] else Indices(ps[..|ps| - 1]) + Range(ps[|ps| - 1].start, ps[|ps| - 1].count)
  }

  /** The condition under which n pieces of `size` split `total` with no
      empty piece: all but the last are full, the last is not empty. */
  predicate ExactSplit(total: int, size: int, n: nat)
  {
    total > 0 && size > 0 && (n - 1) * size < total <= n * size
  }

  lemma {:induction false} FullPrefix(start: int, total: int, size: int, k: nat)
    requires size > 0 && k * size <= total
    ensures Indices(Pieces(start, total, size, k)) == Range(start, k * size)
  {
    if k > 0 {
      var ps := Pieces(start, total, size, k);
      assert ps[..k - 1] == Pieces(start, total, size, k - 1);
      assert (k - 1) * size + size == k * size;
      FullPrefix(start, total, size, k - 1);
      assert ps[k - 1].count == size;
      RangeAppend(start, (k - 1) * size, size);
    }
  }

  /** Exact cover: the pieces are `[start, start + total)`, in order. */
  lemma PiecesCover(start: int, total: int, size: int, n: nat)
    requires ExactSplit(total, size, n)
    ensures Indices(Pieces(start, total, size, n)) == Range(start, total)
  {
    ProductSign(n, size);
    var ps := Pieces(start, total, size, n);
    var m := (n - 1) * size;
    assert n * size == m + size;
    var last := total - m;
    assert ps[n - 1] == Piece(start + m, last);
    assert ps[..n - 1] == Pieces(start, total, size, n - 1);
    FullPrefix(start, total, size, n - 1);
    assert Indices(ps) == Indices(ps[..n - 1]) + Range(start + m, last);
    RangeAppend(start, m, last);
  }

  /** Shape of an exact split: contiguous and ascending, every piece
      non-empty and at most `size`, all but the last exactly `size`. */
  lemma PiecesShape(start: int, total: int, size: int, n: nat)
    requires ExactSplit(total, size, n)
    ensures var ps := Pieces(start, total, size, n);
      && ps[0].start == start
      && (forall i :: 0 <= i < n ==> 1 <= ps[i].count <= size)
      && (forall i :: 0 <= i < n - 1 ==> ps[i].count == size)
      && (forall i :: 0 <= i < n - 1 ==> ps[i + 1].start == ps[i].start + ps[i].count)
  {
    var ps := Pieces(start, total, size, n);
    forall i | 0 <= i < n ensures 1 <= ps[i].count <= size && (i < n - 1 ==> ps[i].count == size) {
      PieceCount(total, size, n, i);
    }
    forall i | 0 <= i < n - 1 ensures ps[i + 1].start == ps[i].start + ps[i].count {
      assert (i + 1) * size == i * size + size;
    }
  }

  /** Piece i of an exact split is non-empty and at most `size`, and full
      unless it is the last. */
  lemma PieceCount(total: int, size: int, n: nat, i: nat)
    requires ExactSplit(total, size, n) && i < n
    ensures 1 <= total - i * size
    ensures i < n - 1 ==> size <= total - i * size
  {
    MulLe(i, n - 1, size);
    if i < n - 1 {
      MulLe(i + 1, n - 1, size);
      assert (i + 1) * size == i * size + size;
    }
  }

  /** Multiplying by a positive factor keeps the order. */
  lemma MulLe(a: int, b: int, c: int)
    requires a <= b && c > 0
    ensures a * c <= b * c
  {
    ProductSign(b - a, c);
    assert (b - a) * c == b * c - a * c;
  }

  /** With a positive size the loop bound is finite and, for a positive
      total, the split is exact; a non-positive total gives no rounds. */
  lemma RoundsExact(total: int, size: int)
    requires size > 0
    ensures LoopRounds(total, size).Finite?
    ensures total <= 0 ==> LoopRounds(total, size).n == 0
    ensures total > 0 ==> ExactSplit(total, size, LoopRounds(total, size).n)
  {
    var q := CeilDiv(total, size);
    ProductSign(q - 1, size);
    ProductSign(q, size);
  }

  /** A zero batch size with work to do never finishes the loop. */
  lemma ZeroSizeUnbounded(total: int)
    requires total > 0
    ensures LoopRounds(total, 0) == Unbounded
  {
  }

  // ---- `results.push(...await batch(...))` over the pieces, stopping at a throw ----

  /** The outcome of running `batch` on each piece in order, appending each
      result: the first throw is rethrown and the partial list dropped. */
  function Outcome<T>(batch: Piece -> Result<seq<T>>, ps: seq<Piece>): Result<seq<T>>
  {
    if ps == [] then Ok([])
    else
      match Outcome(batch, ps[..|ps| - 1])
      case Err(e) => Err(e)
      case Ok(xs) =>
        match batch(ps[|ps| - 1])
        case Err(e) => Err(e)
        case Ok(ys) => Ok(xs + ys)
  }

  /** The results of all pieces in order. */
  function Results<T>(batch: Piece -> Result<seq<T>>, ps: seq<Piece>): seq<seq<T>>
    requires forall i :: 0 <= i < |ps| ==> batch(ps[i]).Ok?
  {
    seq(|ps|, i requires 0 <= i < |ps| => batch(ps[i]).value)
  }

  /** The run succeeds iff every piece does, and then returns their results
      concatenated in piece order. */
  lemma {:induction false} OutcomeOk<T>(batch: Piece -> Result<seq<T>>, ps: seq<Piece>)
    ensures Outcome(batch, ps).Ok? <==> forall i :: 0 <= i < |ps| ==> batch(ps[i]).Ok?
    ensures Outcome(batch, ps).Ok? ==> Outcome(batch, ps).value == Concat(Results(batch, ps))
  {
    if ps != [] {
      var n := |ps| - 1;
      OutcomeOk(batch, ps[..n]);
      if Outcome(batch, ps).Ok? {
        assert Results(batch, ps) == Results(batch, ps[..n]) + [batch(ps[n]).value];
        ConcatSnoc(Results(batch, ps[..n]), batch(ps[n]).value);
      }
    }
  }

  /** A failed run rethrows the error of the first piece that failed. */
  lemma {:induction false} OutcomeErr<T>(batch: Piece -> Result<seq<T>>, ps: seq<Piece>, j: nat)
    requires j < |ps| && batch(ps[j]).Err?
    requires forall i :: 0 <= i < j ==> batch(ps[i]).Ok?
    ensures Outcome(batch, ps) == Err(batch(ps[j]).error)
  {
    var n := |ps| - 1;
    if j < n {
      OutcomeErr(batch, ps[..n], j);
    } else {
      OutcomeOk(batch, ps[..n]);
    }
  }

  /** One more piece of a split extends the run by that piece's result. */
  lemma OutcomeStep<T>(batch: Piece -> Result<seq<T>>, start: int, total: int, size: int, i: nat, xs: seq<T>)
    requires Outcome(batch, Pieces(start, total, size, i)) == Ok(xs)
    ensures Outcome(batch, Pieces(start, total, size, i + 1)) ==
      match batch(PieceAt(start, total, size, i))
      case Err(e) => Err(e)
      case Ok(ys) => Ok(xs + ys)
  {
    assert Pieces(start, total, size, i + 1)[..i] == Pieces(start, total, size, i);
  }

  /** Once a piece has thrown, later pieces change nothing. */
  lemma {:induction false} OutcomeErrSticky<T>(batch: Piece -> Result<seq<T>>, start: int, total: int, size: int, i: nat, n: nat)
    requires i <= n && Outcome(batch, Pieces(start, total, size, i)).Err?
    ensures Outcome(batch, Pieces(start, total, size, n)) == Outcome(batch, Pieces(start, total, size, i))
    decreases n - i
  {
    if i < n {
      assert Pieces(start, total, size, i + 1)[..i] == Pieces(start, total, size, i);
      OutcomeErrSticky(batch, start, total, size, i + 1, n);
    }
  }
}
