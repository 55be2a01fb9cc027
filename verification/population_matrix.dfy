/**
 * The projection matrix: a list of rows, one per life stage, validated to be
 * square when it is built, and the one-step projection of a stage vector.
 */
module PopulationMatrices {
  import opened Wrappers
  import opened PopulationVectors

  datatype PopulationMatrix = PopulationMatrix(matrix: seq<seq<real>>, lifestageCount: u8)

  const NOT_SQUARE_MSG := "Number of items in lifestages must match number of inputted sub-vectors."
  const RAGGED_MSG := "All sub-vectors must be of matching lengths to construct a population matrix."
  /** `input[0]` on an empty list: Rust's bounds-check panic. */
  const EMPTY_INPUT_PANIC := "index out of bounds: the len is 0 but the index is 0"
  const MISMATCH_MSG := "the length of inputted population matrix and population vector do not match."
  const INDEX_PANIC := "Index out of bounds."

  /** Every row has as many entries as there are rows. */
  predicate IsSquare(rows: seq<seq<real>>) {
    forall i :: 0 <= i < |rows| ==> |rows[i]| == |rows|
  }

  /** Row `count` has as many entries as row `count - 1`. */
  predicate PairMatches(rows: seq<seq<real>>, count: int)
    requires 1 <= count < |rows|
  {
    |rows[count]| == |rows[count - 1]|
  }

  /** The invariant of every matrix `Build` returns. */
  predicate ValidMatrix(m: PopulationMatrix) {
    |m.matrix| > 0 && IsSquare(m.matrix) && m.lifestageCount == AsU8(|m.matrix|)
  }

  /**
   * What `PopulationMatrix::build` does: it indexes row 0 (a panic on empty
   * input), rejects a row count that differs from the length of row 0, then
   * rejects the first consecutive pair of rows of different lengths.
   */
  function BuildSpec(input: seq<seq<real>>): Outcome<PopulationMatrix> {
    if |input| == 0 then Panic(EMPTY_INPUT_PANIC)
    else if |input| != |input[0]| then Err(NOT_SQUARE_MSG)
    else if exists count :: 1 <= count < |input| && !PairMatches(input, count) then Err(RAGGED_MSG)
    else Ok(PopulationMatrix(input, AsU8(|input|)))
  }

  method Build(input: seq<seq<real>>) returns (r: Outcome<PopulationMatrix>)
    ensures r == BuildSpec(input)
  {
    if |input| == 0 {
      return Panic(EMPTY_INPUT_PANIC);
    }
    if |input| == |input[0]| {
      for count := 1 to |input|
        invariant forall k :: 1 <= k < count ==> PairMatches(input, k)
      {
        if |input[count]| != |input[count - 1]| {
          assert !PairMatches(input, count);
          return Err(RAGGED_MSG);
        }
      }
      return Ok(PopulationMatrix(input, AsU8(|input|)));
    } else {
      return Err(NOT_SQUARE_MSG);
    }
  }

  /** If every consecutive pair matches, every row is as long as row 0. */
  lemma {:induction false} PairsMatchAllMatch(rows: seq<seq<real>>, i: nat)
    requires i < |rows|
    requires forall count :: 1 <= count < |rows| ==> PairMatches(rows, count)
    ensures |rows[i]| == |rows[0]|
  {
    if i > 0 {
      assert PairMatches(rows, i);
      PairsMatchAllMatch(rows, i - 1);
    }
  }

  /**
   * `build` succeeds exactly on non-empty square input; what it returns holds
   * the rows unchanged and caches the wrapped row count.
   */
  lemma BuildOkIffSquare(input: seq<seq<real>>)
    ensures BuildSpec(input).Ok? <==> |input| > 0 && IsSquare(input)
    ensures BuildSpec(input).Ok? ==>
      ValidMatrix(BuildSpec(input).value) && BuildSpec(input).value.matrix == input
  {
    if |input| > 0 && |input| == |input[0]| &&
       forall count :: 1 <= count < |input| ==> PairMatches(input, count)
    {
      forall i | 0 <= i < |input| ensures |input[i]| == |input| {
        PairsMatchAllMatch(input, i);
      }
    }
    if |input| > 0 && IsSquare(input) {
      assert |input[0]| == |input|;
    }
  }

  /**
   * The order of the checks: the empty list panics; a row count that differs
   * from the length of row 0 gives the first message whatever the other rows
   * are; otherwise a ragged pair gives the second message.
   */
  lemma BuildErrors(input: seq<seq<real>>)
    ensures BuildSpec(input).Panic? <==> |input| == 0
    ensures |input| > 0 && |input| != |input[0]| ==> BuildSpec(input) == Err(NOT_SQUARE_MSG)
    ensures |input| > 0 && |input| == |input[0]| && !IsSquare(input) ==>
      BuildSpec(input) == Err(RAGGED_MSG)
  {
    BuildOkIffSquare(input);
  }

  /**
   * The sum over the row, accumulated left to right as the projection loop
   * does: the running total after `k` entries is `Dot(row[..k], v)`.
   */
  function Dot(row: seq<real>, v: seq<real>): real
    requires |row| <= |v|
  {
    if |row| == 0 then 0.0
    else Dot(row[..|row| - 1], v) + row[|row| - 1] * v[|row| - 1]
  }

  /** No row is longer than the vector, so the inner loop never indexes past it. */
  predicate FitsVector(rows: seq<seq<real>>, v: seq<real>) {
    forall i :: 0 <= i < |rows| ==> |rows[i]| <= |v|
  }

  /** One dot product per row, the ordinary row-by-vector product. */
  function MatVec(rows: seq<seq<real>>, v: seq<real>): seq<real>
    requires FitsVector(rows, v)
  {
    seq(|rows|, i requires 0 <= i < |rows| => Dot(rows[i], v))
  }

  /**
   * What `project_vector` does: an `Err` when the cached counts differ;
   * otherwise a panic when some row reaches past the end of the vector;
   * otherwise the new vector of row-by-vector dot products.
   */
  function ProjectSpec(m: PopulationMatrix, pv: PopulationVector): Outcome<PopulationVector> {
    if m.lifestageCount != pv.lifestageCount then Err(MISMATCH_MSG)
    else if !FitsVector(m.matrix, pv.vector) then Panic(INDEX_PANIC)
    else Ok(New(MatVec(m.matrix, pv.vector)))
  }

  method ProjectVector(m: PopulationMatrix, pv: PopulationVector) returns (r: Outcome<PopulationVector>)
    ensures r == ProjectSpec(m, pv)
  {
    if m.lifestageCount != pv.lifestageCount {
      return Err(MISMATCH_MSG);
    }
    var newPopulationVector: seq<real> := [];
    var storage := 0.0;
    for lifestage := 0 to |m.matrix|
      invariant |newPopulationVector| == lifestage && storage == 0.0
      invariant forall i :: 0 <= i < lifestage ==>
        |m.matrix[i]| <= |pv.vector| && newPopulationVector[i] == Dot(m.matrix[i], pv.vector)
    {
      var row := m.matrix[lifestage];
      for count2 := 0 to |row|
        invariant count2 <= |pv.vector|
        invariant storage == Dot(row[..count2], pv.vector)
      {
        var item := GetValueAtIndex(pv, count2);
        match item {
          case None =>
            assert !FitsVector(m.matrix, pv.vector) by {
              assert |m.matrix[lifestage]| > |pv.vector|;
            }
            return Panic(INDEX_PANIC);
          case Some(x) =>
            assert row[..count2 + 1][..count2] == row[..count2];
            storage := storage + row[count2] * x;
        }
      }
      assert row[..|row|] == row;
      newPopulationVector := newPopulationVector + [storage];
      storage := 0.0;
    }
    assert newPopulationVector == MatVec(m.matrix, pv.vector);
    return Ok(New(newPopulationVector));
  }

  /** `project_vector` returns `Err` exactly when the cached counts differ. */
  lemma ProjectErrIff(m: PopulationMatrix, pv: PopulationVector)
    ensures ProjectSpec(m, pv).Err? <==> m.lifestageCount != pv.lifestageCount
    ensures ProjectSpec(m, pv).Err? ==> ProjectSpec(m, pv) == Err(MISMATCH_MSG)
  {
  }

  /** The dot product only reads the first `|row|` entries of the vector. */
  lemma {:induction false} DotReadsPrefix(row: seq<real>, v: seq<real>, w: seq<real>)
    requires |row| <= |v| && |row| <= |w| && v[..|row|] == w[..|row|]
    ensures Dot(row, v) == Dot(row, w)
  {
    if |row| > 0 {
      var n := |row| - 1;
      assert v[..n] == v[..|row|][..n] && w[..n] == w[..|row|][..n];
      assert v[n] == v[..|row|][n] && w[n] == w[..|row|][n];
      DotReadsPrefix(row[..n], v, w);
    }
  }

  /**
   * On a built matrix with a vector at least as long as the matrix, matching
   * counts give one entry per row, entry `i` the dot product of row `i` with
   * the first `|rows|` entries of the vector; the entries beyond are ignored.
   */
  lemma ProjectOnBuiltMatrix(m: PopulationMatrix, pv: PopulationVector)
    requires ValidMatrix(m) && m.lifestageCount == pv.lifestageCount
    requires |pv.vector| >= |m.matrix|
    ensures ProjectSpec(m, pv).Ok?
    ensures ValidVector(ProjectSpec(m, pv).value)
    ensures ProjectSpec(m, pv).value.vector == MatVec(m.matrix, pv.vector[..|m.matrix|])
    ensures |ProjectSpec(m, pv).value.vector| == |m.matrix|
  {
    var n := |m.matrix|;
    var head := pv.vector[..n];
    forall i | 0 <= i < n ensures Dot(m.matrix[i], pv.vector) == Dot(m.matrix[i], head) {
      assert head[..n] == pv.vector[..n];
      DotReadsPrefix(m.matrix[i], pv.vector, head);
    }
  }

  /**
   * On a built matrix a vector shorter than the matrix whose count matches
   * (possible only through the u8 wrap) reaches the `expect` and panics.
   */
  lemma ProjectShortVectorPanics(m: PopulationMatrix, pv: PopulationVector)
    requires ValidMatrix(m) && m.lifestageCount == pv.lifestageCount
    requires |pv.vector| < |m.matrix|
    ensures ProjectSpec(m, pv) == Panic(INDEX_PANIC)
  {
    assert |m.matrix[0]| > |pv.vector|;
  }
}
