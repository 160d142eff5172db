/** Scores of `libhnsw.c`: distances are better when smaller, similarities when larger. */
module Scores {

  datatype Metric = Cosine | InnerProduct | L2

  predicate Better(m: Metric, a: real, b: real) {
    if m.L2? then a < b else a > b
  }

  predicate Worse(m: Metric, a: real, b: real) {
    if m.L2? then a > b else a < b
  }

  datatype NodeScore = NodeScore(idx: nat, score: real)
}
