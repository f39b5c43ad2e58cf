/**
 * The values `Math.random()` can return. Random draws are inputs of the model.
 */
module Random {

  /** A value `Math.random()` can return. */
  predicate IsDraw(r: real) {
    0.0 <= r < 1.0
  }
}
