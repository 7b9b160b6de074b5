/** A proof that only hands an invariant on need not see what the invariant says. A sealed
    invariant is stated for every token k with Open(k), so its text comes into play only
    where there is a token: in the proof of the invariant itself, and after
    `assert Open(true)`. Shown does the same for what a step or a call did, Inside for an
    invariant within an invariant, and Beneath for a step made of sealed steps. */
module Seals {
  predicate Open(k: bool) { true }

  predicate Shown(k: bool) { true }

  predicate Inside(k: bool) { true }

  predicate Beneath(k: bool) { true }
}
