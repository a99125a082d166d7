// The shape checks of XLA's tridiagonal solver, how the packed form is
// split into its three diagonals, and the transpose that swaps the last
// two dimensions of the right-hand side. The Thomas algorithm's
// arithmetic is not modelled.
module Tridiagonal {
  import opened Common

  /** A shape: its dimensions, outermost first. */
  type Shape = seq<int>

  datatype TridiagonalSystemShape = TridiagonalSystemShape(rank: int, numEquations: int)

  /** CheckSecondToLastDimension. */
  function CheckSecondToLastDimension(shape: Shape, rank: int, expected: int): (c: Code)
    requires 2 <= rank == |shape|
    ensures c == Ok <==> shape[rank - 2] == expected
    ensures c != Ok ==> c == InvalidArgument
  {
    if shape[rank - 2] != expected then InvalidArgument else Ok
  }

  /** CheckSystemAndReturnShape: equal ranks, rank at least 2, equal
      innermost dimensions, and a second-to-last dimension of 1 for each of
      the three diagonals (the right-hand side may have any). */
  function CheckSystemAndReturnShape(lower: Shape, main: Shape, upper: Shape, rhs: Shape)
    : (r: Result<TridiagonalSystemShape>)
    ensures r.Failure? ==> r.code == InvalidArgument
    ensures r.Success? <==>
              |lower| == |main| == |upper| == |rhs| && |lower| >= 2 &&
              lower[|lower| - 1] == main[|lower| - 1] == upper[|lower| - 1] == rhs[|lower| - 1] &&
              lower[|lower| - 2] == 1 && main[|lower| - 2] == 1 && upper[|lower| - 2] == 1
    ensures r.Success? ==> r.value == TridiagonalSystemShape(|lower|, lower[|lower| - 1])
  {
    if !(|lower| == |main| && |lower| == |upper| && |lower| == |rhs|) then Failure(InvalidArgument)
    else
      var rank := |lower|;
      if rank < 2 then Failure(InvalidArgument)
      else if !(lower[rank - 1] == main[rank - 1] && lower[rank - 1] == upper[rank - 1] &&
                lower[rank - 1] == rhs[rank - 1]) then Failure(InvalidArgument)
      else if CheckSecondToLastDimension(lower, rank, 1) != Ok then Failure(InvalidArgument)
      else if CheckSecondToLastDimension(main, rank, 1) != Ok then Failure(InvalidArgument)
      else if CheckSecondToLastDimension(upper, rank, 1) != Ok then Failure(InvalidArgument)
      else Success(TridiagonalSystemShape(rank, lower[rank - 1]))
  }

  /** The right-hand side's second-to-last dimension (its number of
      right-hand sides) never affects the check. */
  lemma RhsSecondToLastExempt(lower: Shape, main: Shape, upper: Shape, rhs: Shape, k: int)
    requires |rhs| >= 2
    ensures CheckSystemAndReturnShape(lower, main, upper, rhs) ==
              CheckSystemAndReturnShape(lower, main, upper, rhs[|rhs| - 2 := k])
  {
  }

  // ---------------------------------------------------------------------
  // The packed form
  // ---------------------------------------------------------------------

  /** SliceInDim(x, start, limit, 1, dim) on a shape: the dimension narrows
      to limit - start, and a range outside the dimension is an error. */
  function SliceShape(shape: Shape, start: int, limit: int, dim: int): (r: Result<Shape>)
    ensures r.Success? ==> 0 <= dim < |shape| && r.value == shape[dim := limit - start]
  {
    if 0 <= dim < |shape| && 0 <= start <= limit <= shape[dim]
    then Success(shape[dim := limit - start])
    else Failure(InvalidArgument)
  }

  /** The same slice on the values of the innermost two dimensions of one
      batch element: rows start up to limit. */
  function SliceRows<T>(rows: seq<seq<T>>, start: int, limit: int): Result<seq<seq<T>>>
  {
    if 0 <= start <= limit <= |rows| then Success(rows[start..limit]) else Failure(InvalidArgument)
  }

  /** The three diagonals of a packed system: rows 0, 1 and 2 are the upper,
      main and lower diagonal. */
  datatype Diagonals<T> = Diagonals(upper: seq<seq<T>>, main: seq<seq<T>>, lower: seq<seq<T>>)

  function Unpack<T>(rows: seq<seq<T>>): (r: Result<Diagonals<T>>)
    ensures r.Success? <==> |rows| >= 3
    ensures r.Success? ==> r.value == Diagonals([rows[0]], [rows[1]], [rows[2]])
  {
    var u, m, l := SliceRows(rows, 0, 1), SliceRows(rows, 1, 2), SliceRows(rows, 2, 3);
    if u.Success? && m.Success? && l.Success? then Success(Diagonals(u.value, m.value, l.value))
    else Failure(InvalidArgument)
  }

  /** Stacking the three diagonals of a system of exactly three rows gives
      the packed system back. */
  lemma UnpackThenStack<T>(rows: seq<seq<T>>)
    requires |rows| == 3
    ensures var d := Unpack(rows).value; d.upper + d.main + d.lower == rows
  {
  }

  /** The transpose order of the packed solver: the identity with the last
      two dimensions swapped. */
  function TransposeOrder(rank: int): (order: seq<int>)
    requires rank >= 2
    ensures |order| == rank
    ensures forall i :: 0 <= i < rank - 2 ==> order[i] == i
    ensures order[rank - 2] == rank - 1 && order[rank - 1] == rank - 2
  {
    seq(rank, i requires 0 <= i < rank => if i == rank - 2 then rank - 1 else if i == rank - 1 then rank - 2 else i)
  }

  /** Transpose(x, order) on a shape: dimension i of the result is
      dimension order[i] of x. */
  function Permute(shape: Shape, order: seq<int>): (r: Shape)
    requires forall i :: 0 <= i < |order| ==> 0 <= order[i] < |shape|
    ensures |r| == |order|
    ensures forall i :: 0 <= i < |order| ==> r[i] == shape[order[i]]
  {
    seq(|order|, i requires 0 <= i < |order| => shape[order[i]])
  }

  /** The transpose order is a permutation that is its own inverse, so
      transposing twice gives the shape back and only the last two
      dimensions trade places. */
  lemma TransposeOrderInvolution(shape: Shape)
    requires |shape| >= 2
    ensures var order := TransposeOrder(|shape|);
            (forall i :: 0 <= i < |shape| ==> 0 <= order[i] < |shape| && order[order[i]] == i) &&
            Permute(Permute(shape, order), order) == shape &&
            Permute(shape, order) == shape[..|shape| - 2] + [shape[|shape| - 1], shape[|shape| - 2]]
  {
    var order := TransposeOrder(|shape|);
    var once := Permute(shape, order);
    assert Permute(once, order) == shape;
    var swapped := shape[..|shape| - 2] + [shape[|shape| - 1], shape[|shape| - 2]];
    assert forall i :: 0 <= i < |shape| ==> once[i] == swapped[i];
  }

  /** The index positions the source writes into the transpose order: it
      assigns entries rank - 2 and rank - 1 of a vector of rank entries
      without checking the rank first. */
  function TransposeOrderWrites(rank: int): set<int>
  {
    {rank - 2, rank - 1}
  }

  /** For diagonals of rank 1 the source writes entry -1 of a one-entry
      vector, before any check of the rank has run. */
  lemma RankOneWritesOutOfBounds()
    ensures exists i :: i in TransposeOrderWrites(1) && !(0 <= i < 1)
  {
    assert -1 in TransposeOrderWrites(1);
  }

  /** Both writes land inside the vector of rank entries exactly when the
      rank is at least 2, the bound the corrected solver checks first. */
  lemma TransposeOrderWritesInBounds(rank: nat)
    ensures (forall i :: i in TransposeOrderWrites(rank) ==> 0 <= i < rank) <==> rank >= 2
  {
    if rank < 2 {
      assert rank - 2 in TransposeOrderWrites(rank);
    }
  }

  /** ThomasSolver(diagonals, rhs) up to the solve itself: diagonals of rank
      below 2 are rejected before the transpose order is built (as the
      four-operand check would reject them), the three diagonals are sliced
      from rows 0, 1 and 2 of the second-to-last dimension, and the
      right-hand side is transposed before the four-operand check. */
  function PackedSystemShape(diagonals: Shape, rhs: Shape): (r: Result<TridiagonalSystemShape>)
    ensures r.Failure? ==> r.code == InvalidArgument
  {
    var rank := |diagonals|;
    if rank < 2 || |rhs| != rank then Failure(InvalidArgument)
    else
      var upper, main, lower := SliceShape(diagonals, 0, 1, rank - 2), SliceShape(diagonals, 1, 2, rank - 2),
                                SliceShape(diagonals, 2, 3, rank - 2);
      if upper.Failure? || main.Failure? || lower.Failure? then Failure(InvalidArgument)
      else CheckSystemAndReturnShape(lower.value, main.value, upper.value,
                                     Permute(rhs, TransposeOrder(rank)))
  }

  /** The packed solver accepts diagonals [..., at least 3, n] with a
      right-hand side [..., n, k] of the same rank, for any k, and solves n
      equations; anything else is InvalidArgument. */
  lemma PackedShapeAccepted(diagonals: Shape, rhs: Shape)
    ensures PackedSystemShape(diagonals, rhs).Success? <==>
              |diagonals| >= 2 && |rhs| == |diagonals| && diagonals[|diagonals| - 2] >= 3 &&
              rhs[|rhs| - 2] == diagonals[|diagonals| - 1]
    ensures PackedSystemShape(diagonals, rhs).Success? ==>
              PackedSystemShape(diagonals, rhs).value ==
                TridiagonalSystemShape(|diagonals|, diagonals[|diagonals| - 1])
  {
    if |diagonals| >= 2 && |rhs| == |diagonals| {
      TransposeOrderInvolution(rhs);
    }
  }
}
