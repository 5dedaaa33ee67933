/** The supply-cap comparison `current_supply + amount > max_supply` of both
    `process_mint` functions. The addition is Rust's plain `+` on `u64`, whose
    behaviour on overflow depends on how the program is built; the model takes
    the choice as a parameter. */
module SupplyCap {
  import opened Codec
  import opened Runtime

  /** What `current_supply + amount` does when the true sum is 2^64 or more. */
  datatype AddSemantics =
      /** Built with overflow checks on: the addition panics and the request aborts. */
    | OverflowPanics
      /** Built with overflow checks off (Cargo's release default): the sum wraps modulo 2^64. */
    | OverflowWraps
      /** `current_supply.checked_add(amount)`, an overflow counting as exceeding the cap. */
    | CheckedAdd

  /** Whether the mint must be refused as exceeding the cap, or `Panic`.
      Without overflow every semantics compares the true sum with the cap
      (above it is refused, equal to it is allowed). With overflow checks on or
      a checked addition a mint is let through only when the true sum stays
      within the cap; an overflow panics or is refused. */
  function CapExceeded(current: u64, amount: u64, maxSupply: u64, sem: AddSemantics): (r: Result<bool>)
    ensures current + amount < U64_LIMIT ==> r == Ok(current + amount > maxSupply)
    ensures sem != OverflowWraps ==> (r == Ok(false) <==> current + amount <= maxSupply)
    ensures sem == OverflowPanics && current + amount >= U64_LIMIT ==> r == Err(Panic)
    ensures sem == CheckedAdd ==> r == Ok(current + amount > maxSupply)
    ensures sem == OverflowWraps ==> r == Ok((current + amount) % U64_LIMIT > maxSupply)
  {
    var sum := current + amount;
    if sum < U64_LIMIT then Ok(sum > maxSupply)
    else
      match sem
      case OverflowPanics => Err(Panic)
      case OverflowWraps => Ok(sum - U64_LIMIT > maxSupply)
      case CheckedAdd => Ok(true)
  }

  /** With wrapping addition an overflowing sum can pass the check: the cap is
      1000, 1000 are already minted, and the new amount makes the sum exactly 2^64. */
  lemma WrappingPassesOverCap()
    ensures var amount := U64_LIMIT - 1000;
      CapExceeded(1000, amount, 1000, OverflowWraps) == Ok(false) && 1000 + amount > 1000
  {
  }
}
