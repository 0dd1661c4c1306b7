/** Account addresses as the client code handles them: strings compared either exactly or lower-cased. */
module Addresses {

  type Address = string

  /** The zero address: the ledger's value for a creator or winner that was never set. */
  const ZERO: Address := "0x0000000000000000000000000000000000000000"

  /** `toLowerCase` on one character, for the ASCII letters an address can hold. */
  function LowerChar(c: char): (d: char)
    ensures 'A' <= c <= 'Z' ==> 'a' <= d <= 'z'
    ensures !('A' <= c <= 'Z') ==> d == c
  {
    if 'A' <= c <= 'Z' then (c as int - 'A' as int + 'a' as int) as char else c
  }

  /** `toLowerCase` on a string. */
  function Lower(s: string): (r: string)
    ensures |r| == |s|
    ensures forall i :: 0 <= i < |s| ==> r[i] == LowerChar(s[i])
  {
    seq(|s|, i requires 0 <= i < |s| => LowerChar(s[i]))
  }

  /** Two addresses name the same account when they agree once lower-cased. */
  predicate SameAddress(a: Address, b: Address)
  {
    Lower(a) == Lower(b)
  }

  lemma LowerIdempotent(s: string)
    ensures Lower(Lower(s)) == Lower(s)
  {
  }
}
