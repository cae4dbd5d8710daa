/** A byte as a number, for the code that computes with bytes. */
module Octets {
  type byte = x: int | 0 <= x < 256
}
