/** The shape of an Express reply as the handlers build it. */
module Http {

  /** A reply: a success status with a body, or an error status with the
      `error` string of the JSON body `{ error: ... }`. */
  datatype Response<+T> = Ok(status: nat, body: T) | Fail(status: nat, error: string) {
    predicate IsFail(s: nat) {
      Fail? && status == s
    }
  }
}
