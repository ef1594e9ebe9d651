/** The two C library functions the estimators call, `expf` and `powf`, are
    not re-derived: every operation that needs them takes them as function
    parameters, and `IsExp` states the only facts about `expf` the proofs
    rely on. */
module MathLib {

  /** `exp` is positive everywhere and maps 0 to 1. */
  ghost predicate IsExp(exp: real -> real) {
    (forall t :: exp(t) > 0.0) && exp(0.0) == 1.0
  }
}
