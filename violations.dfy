/** The records the schedule checker reports: violations of hard constraints and scores
    of soft ones. */
module Violations {

  datatype Severity = Error | Warning

  /** A broken constraint, named by `constraint`, with a message. */
  datatype Violation = Violation(constraint: string, message: string, severity: Severity)

  /** A soft-constraint score out of `maxScore`. The Rust fields are `f64`; here they are
      exact reals. */
  datatype SoftScore = SoftScore(constraint: string, score: real, maxScore: real, details: string)

  /** Some violation has severity `Error`. */
  predicate AnyError(vs: seq<Violation>) {
    exists i :: 0 <= i < |vs| && vs[i].severity == Error
  }
}
