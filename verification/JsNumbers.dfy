/** Whole numbers a JavaScript number holds exactly. */
module JsNumbers {
  const MAX_SAFE_INTEGER: int := 9007199254740991

  predicate SafeInteger(n: int) {
    -MAX_SAFE_INTEGER <= n <= MAX_SAFE_INTEGER
  }

  predicate SafeCount(n: int) {
    0 <= n <= MAX_SAFE_INTEGER
  }
}
