/** A way to keep the body of a predicate out of proofs that do not need it. */
module Hiding {

  /** Always true. What is stated for every `k` of it is there for whoever mentions it, and
      otherwise remains unexamined. */
  ghost predicate Detail(k: nat) {
    true
  }
}
