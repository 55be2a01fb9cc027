/**
 * The stage vector: one (real) count per life stage, together with a cached
 * stage count that is stored as an unsigned 8-bit integer.
 */
module PopulationVectors {
  import opened Wrappers

  /** Values an unsigned 8-bit integer can hold. */
  type u8 = x: int | 0 <= x < 256

  /** The `as u8` cast of a length: it keeps the low eight bits, that is, wraps modulo 256. */
  function AsU8(n: nat): (r: u8)
    ensures n < 256 ==> r == n
  {
    n % 256
  }

  datatype PopulationVector = PopulationVector(vector: seq<real>, lifestageCount: u8)

  /** The invariant every vector made by `New` has: the cached count is the wrapped length. */
  predicate ValidVector(pv: PopulationVector) {
    pv.lifestageCount == AsU8(|pv.vector|)
  }

  /** `PopulationVector::new`: stores the values unchanged and caches their count as a u8. */
  function New(values: seq<real>): (r: PopulationVector)
    ensures r.vector == values && ValidVector(r)
    ensures |values| < 256 ==> r.lifestageCount == |values|
  {
    PopulationVector(values, AsU8(|values|))
  }

  /**
   * `get_value_at_index`: the value at `index` when there is one, `None`
   * otherwise; it never fails.
   */
  function GetValueAtIndex(pv: PopulationVector, index: nat): (r: Option<real>)
    ensures r.Some? <==> index < |pv.vector|
    ensures r.Some? ==> r.value == pv.vector[index]
  {
    if index < |pv.vector| then Some(pv.vector[index]) else None
  }
}
