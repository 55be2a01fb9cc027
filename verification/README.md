# EcolysisCMD deterministic projection engine, in Dafny

This project models the stage-structured projection engine of EcolysisCMD
(`src/populations/population_level_simulation.rs`). That engine performs a
deterministic Population Viability Analysis. A population is a vector of
counts, one per life stage (`PopulationVector`). A square projection matrix
(`PopulationMatrix`) holds one row of recruitment and survival rates per
stage. A `PvaDeterministicPopulation` couples the two. Its
`deterministic_projection` multiplies the matrix into the active vector
`iterations` times and collects every result into a `PvaDeterministicOutput`.

Modules and files:

- `wrappers.dfy` (`Wrappers`): `Option`, and `Outcome` = `Ok` | `Err(msg)` | `Panic(msg)`.
  `Err` is a Rust `Err` return with its static message. `Panic` is an abort:
  indexing `input[0]` on an empty list, or a failed `expect`.
- `population_vector.dfy` (`PopulationVectors`): the vector value, its `u8`
  cached count (`AsU8` is the `as u8` cast, a reduction modulo 256), `New`
  and `GetValueAtIndex`.
- `population_matrix.dfy` (`PopulationMatrices`): the matrix value.
  `Build` is the validating loop and `ProjectVector` the nested accumulator
  loop. Each is a method proved equal to a specification function
  (`BuildSpec`, `ProjectSpec`), and lemmas state what those functions promise.
- `deterministic_population.dfy` (`DeterministicPva`): `BuildPopulation` and
  the driver loop `DeterministicProjection`. The loop is proved equal to
  `DeterministicSpec`, which is defined through `Run`. `Run` follows the loop
  pass by pass and is tied to `Power`, the matrix applied `k` times.
- `worked_examples.dfy` (`WorkedExamples`): the source's unit tests and doc
  example, stated on exact reals.
- `lifestage_wrap.dfy` (`LifestageWrap`): the counts-modulo-256 finding below.

All values are immutable in the source: structs are built once and `Clone`d,
and every operation takes `&self` or consumes its inputs. So every entity is a
datatype. `project_vector`'s input vector and matrix are values, so they are
unchanged by construction. The getters `get_vector`, `get_lifestage_count`,
`get_matrix` and `return_output` are the datatype fields `vector`,
`lifestageCount`, `matrix` and `result`. `PvaDeterministicOutput::new` is the
datatype constructor. Repeating a build or a run with the same inputs gives
the same result because every member is a function of its inputs.

Where the source's doc comments and the code disagree, the model follows the code:

- An empty matrix input panics at `input[0]`; `build` returns no error for it.
- The stage counts are `u8`, so they equal the lengths only below 256 stages.
- The projection is the ordinary row-by-vector product, as the code and its
  worked example compute. It is not the "column-wise" product the doc comment
  names.

## Model

| member | source | states |
|---|---|---|
| PopulationVectors.AsU8 | src/populations/population_level_simulation.rs:13 | the `as u8` cast is the identity below 256 |
| PopulationVectors.New | src/populations/population_level_simulation.rs:11-16 | the values are stored unchanged; the cached count is the length modulo 256, and equals the length below 256 |
| PopulationVectors.GetValueAtIndex | src/populations/population_level_simulation.rs:19-21 | `Some(v[i])` exactly when `i` is in range, `None` otherwise; never fails |
| PopulationMatrices.Build | src/populations/population_level_simulation.rs:64-78 | the validating loop returns exactly what `BuildSpec` describes: a panic on empty input, then the not-square error, then the ragged-rows error, else the matrix |
| PopulationMatrices.PairsMatchAllMatch | src/populations/population_level_simulation.rs:66-70 | if every consecutive pair of rows has equal length, every row is as long as row 0 |
| PopulationMatrices.BuildOkIffSquare | src/populations/population_level_simulation.rs:64-74 | build succeeds iff the input is non-empty and square; the result holds the rows unchanged, is square and caches the row count modulo 256 |
| PopulationMatrices.BuildErrors | src/populations/population_level_simulation.rs:65-77 | error order: a panic iff empty; a row count unequal to row 0's length gives the first message whatever the other rows are; otherwise a non-square input gives the ragged-rows message |
| PopulationMatrices.ProjectVector | src/populations/population_level_simulation.rs:119-141 | the nested loop with the per-row accumulator returns exactly `ProjectSpec`: `Err` on a count mismatch, a panic if a row reaches past the vector, else one dot product per row |
| PopulationMatrices.ProjectErrIff | src/populations/population_level_simulation.rs:123-127 | `project_vector` returns `Err` iff the cached counts differ, and then with the mismatch message and no vector |
| PopulationMatrices.DotReadsPrefix | src/populations/population_level_simulation.rs:130-136 | a row's dot product reads only the first row-length entries of the vector |
| PopulationMatrices.ProjectOnBuiltMatrix | src/populations/population_level_simulation.rs:128-140 | on a built matrix with matching counts and a long enough vector: success, one entry per row, entry `i` the dot product of row `i` with the vector's first `n` entries |
| PopulationMatrices.ProjectShortVectorPanics | src/populations/population_level_simulation.rs:131-135 | on a built matrix, matching counts with a shorter vector reach the "Index out of bounds." `expect` |
| DeterministicPva.BuildPopulation | src/populations/population_level_simulation.rs:157-169 | fails iff the cached counts differ, with the mismatch message; never panics; on success stores the vector and matrix as given |
| DeterministicPva.DeterministicProjection | src/populations/population_level_simulation.rs:177-185 | the driver loop returns exactly `DeterministicSpec`: the vectors of `Run` after `iterations` passes, or the panic that stopped it |
| DeterministicPva.RunPanicStays | src/populations/population_level_simulation.rs:180-183 | once an iteration panics, more iterations give the same panic |
| DeterministicPva.Power | src/populations/population_level_simulation.rs:180-182 | the repeated projection keeps one entry per stage |
| DeterministicPva.BuiltRunPanicsOnlyAtLookup | src/populations/population_level_simulation.rs:177-185 | a built population's run either succeeds or panics at the "Index out of bounds." lookup; the driver's own `expect` is never reached |
| DeterministicPva.RunNeverErr | src/populations/population_level_simulation.rs:181 | the driver never returns an `Err`: a projection error becomes the `expect` panic, whose message ends with the error |
| DeterministicPva.RunFollowsPower | src/populations/population_level_simulation.rs:177-185 | with a built matrix and a matching vector at least as long: exactly `n` vectors, element `k` the projection applied `k + 1` times to the vector's first `n` entries; the initial vector is not included |
| DeterministicPva.DeterministicProjectionSafe | src/populations/population_level_simulation.rs:177-185 | below 256 stages a built population's run never panics and returns exactly `iterations` vectors, element `k` the projection applied `k + 1` times to the initial vector |
| DeterministicPva.ZeroIterationsEmpty | src/populations/population_level_simulation.rs:180 | zero iterations give an empty series |
| DeterministicPva.ShortVectorRunPanics | src/populations/population_level_simulation.rs:180-181 | a built population whose vector is shorter than its matrix panics on any run of at least one iteration |
| WorkedExamples.Dot3 | src/populations/population_level_simulation.rs:130-136 | a three-entry dot product is the left-to-right sum of products |
| WorkedExamples.ExampleMatVec | src/populations/population_level_simulation.rs:97-99 | one projection by the example matrix, entry by entry |
| WorkedExamples.ExampleBuilds | src/populations/population_level_simulation.rs:264-269 | the example rows build into a three-stage matrix |
| WorkedExamples.MatrixMultiplication | src/populations/population_level_simulation.rs:229-246 | [40, 20, 100] projects to [10, 40, 111] |
| WorkedExamples.InvalidMatrixLength | src/populations/population_level_simulation.rs:249-251 | a 2 x 3 input gives the not-square error |
| WorkedExamples.UnmatchedLifestageLengths | src/populations/population_level_simulation.rs:253-260 | a short third row gives the ragged-rows error |
| WorkedExamples.EmptyInputPanics | src/populations/population_level_simulation.rs:65 | an empty input panics on `input[0]` |
| WorkedExamples.MismatchedProjection | src/populations/population_level_simulation.rs:123-127 | a three-stage vector against a 2 x 2 matrix gives the mismatch error |
| WorkedExamples.ExamplePowerEight | src/populations/population_level_simulation.rs:262-284 | the exact vector after eight projections of the example |
| WorkedExamples.SimpleMatrixProjection | src/populations/population_level_simulation.rs:262-284 | eight iterations give eight vectors; the last rounds to one decimal as [24.9, 50.8, 273.5] |
| LifestageWrap.WrappedCountsPanic | src/populations/population_level_simulation.rs:157-169 | a 259 x 259 matrix and a 3-entry vector pass both checks and the first iteration panics |
| LifestageWrap.WrappedCountsTruncate | src/populations/population_level_simulation.rs:123-140 | a 3 x 3 matrix and a 259-entry vector pass the check; the last 256 entries are ignored |
| LifestageWrap.CorrectedBuildPopulation | src/populations/population_level_simulation.rs:157-169 | comparing whole lengths: fails iff the lengths differ, never panics |
| LifestageWrap.CorrectedBuildNeverPanics | src/populations/population_level_simulation.rs:177-185 | with the corrected check a run of any size never panics and yields the iterated projections |
| LifestageWrap.CorrectedProjectSpec | src/populations/population_level_simulation.rs:119-141 | comparing whole lengths: never panics, errs iff the lengths differ, and agrees with `project_vector` wherever it succeeds |

## Left out

- The floating-point (`f64`) arithmetic: entries are exact `real`s. The tests' rounding to one decimal is stated as bounds on the exact value.
- PopulationVectors.GetValueAtIndex: takes an unbounded `nat` index, not the source's `u32`. The `count2 as u32` cast in `project_vector` matters only for rows of 2^32 or more entries.
- `PvaDeterministicOutput::print_output` (lines 202-216): console output and `f64` formatting.
- `src/lib.rs`: the interactive menu, stdin reading, file reading and CSV parsing are I/O and a library float parse.
- `src/populations/individual_level_simulation.rs`: a struct with no behaviour. No stochastic or individual-based simulation exists in the code, so none is modelled.
- The panic messages for `input[0]` on an empty list and for the two `expect` calls are kept as strings (the driver's with the `: "<error>"` suffix `Result::expect` appends). A panic's unwinding is not otherwise modelled.

## Findings

| source | as written | input that shows it | evidently intended | confidence | as-written member | corrected member |
|---|---|---|---|---|---|---|
| src/populations/population_level_simulation.rs:157-164 | the population check compares stage counts cast to `u8`, i.e. modulo 256 | a 259 x 259 matrix and the 3-entry vector [40, 20, 100] | a built population never panics (the doc at line 106: "so should never occur"; the comment at lines 174-176: "should be prevented by checks when building") | high, not executed | LifestageWrap.WrappedCountsPanic | LifestageWrap.CorrectedBuildPopulation |
| src/populations/population_level_simulation.rs:123-127 | the projection check compares stage counts modulo 256 | the 3 x 3 example matrix and a 259-entry vector | a vector of another length is rejected | high, not executed | LifestageWrap.WrappedCountsTruncate | LifestageWrap.CorrectedProjectSpec |

`CorrectedBuildNeverPanics` proves the intended property for the corrected
population check. The rest of the model keeps the checks as written, because
it models the code; below 256 stages the two agree.
