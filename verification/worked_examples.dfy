/**
 * The worked examples of the projection engine, stated on exact reals: where
 * the program compares values rounded to one decimal, the lemmas bound the
 * exact value by the half-open interval that rounds to that decimal.
 */
module WorkedExamples {
  import opened Wrappers
  import opened PopulationVectors
  import opened PopulationMatrices
  import opened DeterministicPva

  /** The three-stage recruitment matrix of the examples. */
  const EXAMPLE_ROWS: seq<seq<real>> := [[0.0, 0.0, 0.1], [0.6, 0.8, 0.0], [0.0, 0.8, 0.95]]
  const EXAMPLE_MATRIX := PopulationMatrix(EXAMPLE_ROWS, 3)
  /** 40 in stage 0, 20 in stage 1, 100 in stage 2. */
  const EXAMPLE_VECTOR: seq<real> := [40.0, 20.0, 100.0]

  /** A three-entry dot product written out. */
  lemma Dot3(row: seq<real>, x: seq<real>)
    requires |row| == 3 && |x| >= 3
    ensures Dot(row, x) == row[0] * x[0] + row[1] * x[1] + row[2] * x[2]
  {
    assert row[..2][..1] == row[..1] && row[..1][..0] == [];
    assert Dot(row[..1], x) == row[0] * x[0];
    assert Dot(row[..2], x) == Dot(row[..1], x) + row[1] * x[1];
  }

  /** One projection by the example matrix, entry by entry. */
  lemma ExampleMatVec(x: seq<real>)
    requires |x| == 3
    ensures MatVec(EXAMPLE_ROWS, x) == [0.1 * x[2], 0.6 * x[0] + 0.8 * x[1], 0.8 * x[1] + 0.95 * x[2]]
  {
    Dot3(EXAMPLE_ROWS[0], x);
    Dot3(EXAMPLE_ROWS[1], x);
    Dot3(EXAMPLE_ROWS[2], x);
  }

  /** The example rows build into a three-stage matrix. */
  lemma ExampleBuilds()
    ensures BuildSpec(EXAMPLE_ROWS) == Ok(EXAMPLE_MATRIX)
  {
  }

  /** Test `matrix_multiplication`: one step takes [40, 20, 100] to [10, 40, 111]. */
  lemma MatrixMultiplication()
    ensures ProjectSpec(EXAMPLE_MATRIX, New(EXAMPLE_VECTOR)) == Ok(New([10.0, 40.0, 111.0]))
  {
    ExampleMatVec(EXAMPLE_VECTOR);
  }

  /** Test `matrix_invalid_matrix_length`: a 2 x 3 input is not square. */
  lemma InvalidMatrixLength()
    ensures BuildSpec([[0.5, 0.7, 0.3], [0.1, 0.11, 0.6]]) == Err(NOT_SQUARE_MSG)
  {
  }

  /** Test `matrix_unmatched_lifestage_lengths`: a short third row is ragged. */
  lemma UnmatchedLifestageLengths()
    ensures BuildSpec([[0.5, 0.7, 0.3], [0.1, 0.11, 0.6], [0.2, 0.91]]) == Err(RAGGED_MSG)
  {
    assert !PairMatches([[0.5, 0.7, 0.3], [0.1, 0.11, 0.6], [0.2, 0.91]], 2);
  }

  /** An empty input panics on `input[0]`. */
  lemma EmptyInputPanics()
    ensures BuildSpec([]) == Panic(EMPTY_INPUT_PANIC)
  {
  }

  /** A three-stage vector against a 2 x 2 matrix is rejected; no vector is produced. */
  lemma MismatchedProjection()
    ensures ProjectSpec(PopulationMatrix([[1.0, 0.0], [0.0, 1.0]], 2), New(EXAMPLE_VECTOR)) == Err(MISMATCH_MSG)
  {
  }

  /** The example projected eight times, exactly. */
  lemma {:induction false} ExamplePowerEight()
    ensures Power(EXAMPLE_ROWS, EXAMPLE_VECTOR, 8)
      == [24.8625011859375, 50.79194474375, 273.45238656640625]
  {
    var v := EXAMPLE_VECTOR;
    ExampleMatVec(v);
    assert Power(EXAMPLE_ROWS, v, 1) == [10.0, 40.0, 111.0];
    ExampleMatVec(Power(EXAMPLE_ROWS, v, 1));
    assert Power(EXAMPLE_ROWS, v, 2) == [11.1, 38.0, 137.45];
    ExampleMatVec(Power(EXAMPLE_ROWS, v, 2));
    assert Power(EXAMPLE_ROWS, v, 3) == [13.745, 37.06, 160.9775];
    ExampleMatVec(Power(EXAMPLE_ROWS, v, 3));
    assert Power(EXAMPLE_ROWS, v, 4) == [16.09775, 37.895, 182.576625];
    ExampleMatVec(Power(EXAMPLE_ROWS, v, 4));
    assert Power(EXAMPLE_ROWS, v, 5) == [18.2576625, 39.97465, 203.76379375];
    ExampleMatVec(Power(EXAMPLE_ROWS, v, 5));
    assert Power(EXAMPLE_ROWS, v, 6) == [20.376379375, 42.9343175, 225.5553240625];
    ExampleMatVec(Power(EXAMPLE_ROWS, v, 6));
    assert Power(EXAMPLE_ROWS, v, 7) == [22.55553240625, 46.573281625, 248.625011859375];
    ExampleMatVec(Power(EXAMPLE_ROWS, v, 7));
  }

  /**
   * Test `pva_simple_matrix_projection_test`: eight iterations give eight
   * vectors, the last of which rounds to [24.9, 50.8, 273.5].
   */
  lemma SimpleMatrixProjection()
    ensures BuildPopulation(New(EXAMPLE_VECTOR), EXAMPLE_MATRIX).Ok?
    ensures var out := DeterministicSpec(BuildPopulation(New(EXAMPLE_VECTOR), EXAMPLE_MATRIX).value, 8);
      out.Ok? && |out.value.result| == 8 &&
      var last := out.value.result[7].vector;
      |last| == 3 &&
      24.85 <= last[0] < 24.95 && 50.75 <= last[1] < 50.85 && 273.45 <= last[2] < 273.55
  {
    ExampleBuilds();
    BuildOkIffSquare(EXAMPLE_ROWS);
    DeterministicProjectionSafe(New(EXAMPLE_VECTOR), EXAMPLE_MATRIX, 8);
    ExamplePowerEight();
  }
}
