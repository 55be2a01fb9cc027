/**
 * The deterministic population-viability driver: an initial stage vector
 * coupled with one projection matrix, projected forward a given number of
 * times, each step's vector collected in order.
 */
module DeterministicPva {
  import opened Wrappers
  import opened PopulationVectors
  import opened PopulationMatrices

  /** Values an unsigned 32-bit integer can hold (the iteration count). */
  type u32 = x: int | 0 <= x < 0x1_0000_0000

  datatype PvaDeterministicPopulation =
    PvaDeterministicPopulation(initialPopulation: PopulationVector, projectionMatrix: PopulationMatrix)

  /** The time series of a run: one vector per completed step. */
  datatype PvaDeterministicOutput = PvaDeterministicOutput(result: seq<PopulationVector>)

  const POPULATION_MISMATCH_MSG := "Population vector size does not match matrices."
  const PROJECTION_EXPECT_PANIC :=
    "This error should not be possible. Mismatched Vector and Matrix lengths, or non-square Matrix. Please file a bug report."

  /**
   * `PvaDeterministicPopulation::build`: one check that the cached counts
   * agree; the vector and the matrix are kept as given.
   */
  function BuildPopulation(initPop: PopulationVector, matrix: PopulationMatrix): (r: Outcome<PvaDeterministicPopulation>)
    ensures !r.Panic?
    ensures r.Err? <==> matrix.lifestageCount != initPop.lifestageCount
    ensures r.Err? ==> r.msg == POPULATION_MISMATCH_MSG
    ensures r.Ok? ==> r.value.initialPopulation == initPop && r.value.projectionMatrix == matrix
  {
    if matrix.lifestageCount != initPop.lifestageCount then Err(POPULATION_MISMATCH_MSG)
    else Ok(PvaDeterministicPopulation(initPop, matrix))
  }

  /** The panic message of `Result::expect`: the expect text, then the error's debug form. */
  function ExpectPanicMessage(err: string): string {
    PROJECTION_EXPECT_PANIC + ": \"" + err + "\""
  }

  /** One loop step: an `Err` from the projection hits the driver's `expect`. */
  function Step(m: PopulationMatrix, active: PopulationVector): Outcome<PopulationVector> {
    match ProjectSpec(m, active)
    case Ok(next) => Ok(next)
    case Err(e) => Panic(ExpectPanicMessage(e))
    case Panic(p) => Panic(p)
  }

  /** The active vector: the last one collected, or the initial one before the first step. */
  function Active(init: PopulationVector, collected: seq<PopulationVector>): PopulationVector {
    if |collected| == 0 then init else collected[|collected| - 1]
  }

  /** The vectors collected after `n` passes of the loop, or the panic that ended it. */
  function Run(m: PopulationMatrix, init: PopulationVector, n: nat): Outcome<seq<PopulationVector>> {
    if n == 0 then Ok([])
    else match Run(m, init, n - 1)
      case Ok(collected) =>
        (match Step(m, Active(init, collected))
         case Ok(next) => Ok(collected + [next])
         case Err(e) => Err(e)
         case Panic(p) => Panic(p))
      case Err(e) => Err(e)
      case Panic(p) => Panic(p)
  }

  /** What `deterministic_projection` returns for a population and an iteration count. */
  function DeterministicSpec(pop: PvaDeterministicPopulation, iterations: u32): Outcome<PvaDeterministicOutput> {
    match Run(pop.projectionMatrix, pop.initialPopulation, iterations)
    case Ok(collected) => Ok(PvaDeterministicOutput(collected))
    case Err(e) => Err(e)
    case Panic(p) => Panic(p)
  }

  /** Once the loop has panicked, more iterations change nothing. */
  lemma {:induction false} RunPanicStays(m: PopulationMatrix, init: PopulationVector, i: nat, n: nat)
    requires i <= n && Run(m, init, i).Panic?
    ensures Run(m, init, n) == Run(m, init, i)
  {
    if i < n {
      RunPanicStays(m, init, i, n - 1);
    }
  }

  method DeterministicProjection(pop: PvaDeterministicPopulation, iterations: u32)
    returns (r: Outcome<PvaDeterministicOutput>)
    ensures r == DeterministicSpec(pop, iterations)
  {
    var m, init := pop.projectionMatrix, pop.initialPopulation;
    var activeVector := init;
    var result: seq<PopulationVector> := [];
    for i := 0 to iterations
      invariant Run(m, init, i) == Ok(result)
      invariant activeVector == Active(init, result)
    {
      var projected := ProjectVector(m, activeVector);
      match projected {
        case Ok(next) =>
          activeVector := next;
          result := result + [activeVector];
        case Err(e) =>
          RunPanicStays(m, init, i + 1, iterations);
          return Panic(ExpectPanicMessage(e));
        case Panic(p) =>
          RunPanicStays(m, init, i + 1, iterations);
          return Panic(p);
      }
    }
    return Ok(PvaDeterministicOutput(result));
  }

  /** The projection applied `k` times to a vector as long as the (square) matrix. */
  function Power(rows: seq<seq<real>>, x: seq<real>, k: nat): (r: seq<real>)
    requires IsSquare(rows) && |x| == |rows|
    ensures |r| == |rows|
  {
    if k == 0 then x else MatVec(rows, Power(rows, x, k - 1))
  }

  /** The driver never returns an `Err`: a failed projection becomes a panic. */
  lemma {:induction false} RunNeverErr(m: PopulationMatrix, init: PopulationVector, n: nat)
    ensures !Run(m, init, n).Err?
  {
    if n > 0 {
      RunNeverErr(m, init, n - 1);
    }
  }

  /**
   * With a built matrix, a vector whose count matches and that is at least
   * as long as the matrix, the loop never panics: it collects exactly `n`
   * vectors, element `k` being the projection applied `k + 1` times to the
   * first `|rows|` entries of the initial vector (the initial vector itself
   * is not collected).
   */
  lemma {:induction false} RunFollowsPower(m: PopulationMatrix, init: PopulationVector, n: nat)
    requires ValidMatrix(m) && ValidVector(init) && m.lifestageCount == init.lifestageCount
    requires |init.vector| >= |m.matrix|
    ensures Run(m, init, n).Ok? && |Run(m, init, n).value| == n
    ensures forall k :: 0 <= k < n ==>
      Run(m, init, n).value[k] == New(Power(m.matrix, init.vector[..|m.matrix|], k + 1))
  {
    if n > 0 {
      RunFollowsPower(m, init, n - 1);
      var rows, head := m.matrix, init.vector[..|m.matrix|];
      var collected := Run(m, init, n - 1).value;
      var active := Active(init, collected);
      if n == 1 {
        assert active == init;
      } else {
        assert active == New(Power(rows, head, n - 1));
        assert active.vector[..|rows|] == active.vector;
      }
      assert active.vector[..|rows|] == Power(rows, head, n - 1);
      ProjectOnBuiltMatrix(m, active);
      assert Step(m, active) == Ok(New(Power(rows, head, n)));
      assert Run(m, init, n) == Ok(collected + [New(Power(rows, head, n))]);
    }
  }

  /**
   * A population built from a built matrix and a vector made by `New`, both
   * with fewer than 256 stages: `deterministic_projection(n)` never reaches
   * either `expect` and returns exactly `n` vectors, element `k` the
   * projection applied `k + 1` times to the initial vector.
   */
  lemma DeterministicProjectionSafe(initPop: PopulationVector, matrix: PopulationMatrix, iterations: u32)
    requires ValidMatrix(matrix) && ValidVector(initPop)
    requires |matrix.matrix| < 256 && |initPop.vector| < 256
    requires BuildPopulation(initPop, matrix).Ok?
    ensures |initPop.vector| == |matrix.matrix|
    ensures DeterministicSpec(BuildPopulation(initPop, matrix).value, iterations).Ok?
    ensures var out := DeterministicSpec(BuildPopulation(initPop, matrix).value, iterations).value.result;
      |out| == iterations &&
      forall k :: 0 <= k < iterations ==> out[k] == New(Power(matrix.matrix, initPop.vector, k + 1))
  {
    RunFollowsPower(matrix, initPop, iterations);
    assert initPop.vector[..|matrix.matrix|] == initPop.vector;
  }

  /** Zero iterations give an empty series, whatever the population. */
  lemma ZeroIterationsEmpty(pop: PvaDeterministicPopulation)
    ensures DeterministicSpec(pop, 0) == Ok(PvaDeterministicOutput([]))
  {
  }

  /**
   * Through the u8 wrap a built population can hold a vector shorter than
   * its matrix; then any run of at least one iteration panics at the
   * vector lookup.
   */
  lemma {:induction false} ShortVectorRunPanics(m: PopulationMatrix, init: PopulationVector, n: nat)
    requires ValidMatrix(m) && m.lifestageCount == init.lifestageCount
    requires |init.vector| < |m.matrix| && n >= 1
    ensures Run(m, init, n) == Panic(INDEX_PANIC)
  {
    ProjectShortVectorPanics(m, init);
    assert Run(m, init, 1) == Panic(INDEX_PANIC);
    RunPanicStays(m, init, 1, n);
  }

  /**
   * A built population never reaches the driver's own `expect`: a run either
   * succeeds or panics at the vector lookup of the projection.
   */
  lemma {:induction false} BuiltRunPanicsOnlyAtLookup(m: PopulationMatrix, init: PopulationVector, n: nat)
    requires ValidMatrix(m) && ValidVector(init) && m.lifestageCount == init.lifestageCount
    ensures Run(m, init, n).Ok? || Run(m, init, n) == Panic(INDEX_PANIC)
  {
    if |init.vector| >= |m.matrix| {
      RunFollowsPower(m, init, n);
    } else if n >= 1 {
      ShortVectorRunPanics(m, init, n);
    }
  }
}
