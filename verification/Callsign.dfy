/** The characters of station calls, and the call that only stands for one. */
module Callsign {
  const PLACEHOLDER := "N0CALL"

  predicate Digit(c: char) { '0' <= c <= '9' }

  predicate Letter(c: char) { 'A' <= c <= 'Z' }

  predicate Alnum(c: char) { Digit(c) || Letter(c) }
}
