/**
 * The stage counts are cached as u8 and compared as u8, so a vector and a
 * matrix whose lengths differ by a multiple of 256 pass every check. This
 * module exhibits the two consequences on the model as written, and states
 * the check the code evidently intends (comparing whole lengths) with the
 * property it guarantees.
 */
module LifestageWrap {
  import opened Wrappers
  import opened PopulationVectors
  import opened PopulationMatrices
  import opened DeterministicPva
  import opened WorkedExamples

  /** A 259 x 259 matrix of zeros: its cached count is 259 mod 256 = 3. */
  const WIDE_ROWS: seq<seq<real>> := seq(259, _ => seq(259, _ => 0.0))

  /**
   * As written: a 259 x 259 matrix and a three-entry vector pass both the
   * matrix check and the population check, and the first iteration panics
   * at the lookup the code calls impossible.
   */
  lemma WrappedCountsPanic()
    ensures BuildSpec(WIDE_ROWS).Ok?
    ensures BuildSpec(WIDE_ROWS).value.lifestageCount == New(EXAMPLE_VECTOR).lifestageCount
    ensures BuildPopulation(New(EXAMPLE_VECTOR), BuildSpec(WIDE_ROWS).value).Ok?
    ensures DeterministicSpec(BuildPopulation(New(EXAMPLE_VECTOR), BuildSpec(WIDE_ROWS).value).value, 1)
      == Panic(INDEX_PANIC)
  {
    BuildOkIffSquare(WIDE_ROWS);
    ShortVectorRunPanics(BuildSpec(WIDE_ROWS).value, New(EXAMPLE_VECTOR), 1);
  }

  /**
   * As written: a 3 x 3 matrix and a 259-entry vector pass the projection's
   * check, and the projection silently ignores the last 256 entries.
   */
  lemma WrappedCountsTruncate()
    ensures var long := New(EXAMPLE_VECTOR + seq(256, _ => 1.0));
      long.lifestageCount == EXAMPLE_MATRIX.lifestageCount &&
      ProjectSpec(EXAMPLE_MATRIX, long) == Ok(New([10.0, 40.0, 111.0]))
  {
    var long := New(EXAMPLE_VECTOR + seq(256, _ => 1.0));
    ExampleBuilds();
    BuildOkIffSquare(EXAMPLE_ROWS);
    ProjectOnBuiltMatrix(EXAMPLE_MATRIX, long);
    assert long.vector[..3] == EXAMPLE_VECTOR;
    ExampleMatVec(EXAMPLE_VECTOR);
  }

  /** The population check on whole lengths rather than wrapped counts. */
  function CorrectedBuildPopulation(initPop: PopulationVector, matrix: PopulationMatrix): (r: Outcome<PvaDeterministicPopulation>)
    ensures !r.Panic?
    ensures r.Err? <==> |matrix.matrix| != |initPop.vector|
    ensures r.Ok? ==> r.value.initialPopulation == initPop && r.value.projectionMatrix == matrix
  {
    if |matrix.matrix| != |initPop.vector| then Err(POPULATION_MISMATCH_MSG)
    else Ok(PvaDeterministicPopulation(initPop, matrix))
  }

  /**
   * With the corrected check, for any number of stages, a run never panics
   * and yields exactly the iterated projections of the initial vector.
   */
  lemma CorrectedBuildNeverPanics(initPop: PopulationVector, matrix: PopulationMatrix, iterations: u32)
    requires ValidMatrix(matrix) && ValidVector(initPop)
    requires CorrectedBuildPopulation(initPop, matrix).Ok?
    ensures BuildPopulation(initPop, matrix).Ok?
    ensures var out := DeterministicSpec(CorrectedBuildPopulation(initPop, matrix).value, iterations);
      out.Ok? && |out.value.result| == iterations &&
      forall k :: 0 <= k < iterations ==> out.value.result[k] == New(Power(matrix.matrix, initPop.vector, k + 1))
  {
    RunFollowsPower(matrix, initPop, iterations);
    assert initPop.vector[..|matrix.matrix|] == initPop.vector;
  }

  /** The projection check on whole lengths rather than wrapped counts. */
  function CorrectedProjectSpec(m: PopulationMatrix, pv: PopulationVector): (r: Outcome<PopulationVector>)
    requires ValidMatrix(m)
    ensures !r.Panic?
    ensures r.Err? <==> |m.matrix| != |pv.vector|
    ensures r.Ok? ==> |r.value.vector| == |m.matrix|
    ensures r.Ok? ==> forall i :: 0 <= i < |m.matrix| ==> r.value.vector[i] == Dot(m.matrix[i], pv.vector)
    ensures ValidVector(pv) && r.Ok? ==> r == ProjectSpec(m, pv)
  {
    if |m.matrix| != |pv.vector| then Err(MISMATCH_MSG)
    else Ok(New(MatVec(m.matrix, pv.vector)))
  }
}
