/** `handleVoucherChainError`: turns whatever a contract call threw into
    the text the hooks show, by an ordered chain of substring tests on the
    error's message with a fallback. */
module VoucherChainErrors {
  import opened Chain
  import opened Text

  const GenericError: string := "An error occurred"

  /** The six tests of the chain, in source order. */
  const HandlerRules: seq<Rule> := [
    Rule("VoucherNotFound", "Voucher not found"),
    Rule("VoucherAlreadyRedeemed", "Voucher already redeemed"),
    Rule("VoucherExpired", "Voucher has expired"),
    Rule("TokenNotSupported", "Token not supported"),
    Rule("UnauthorizedMinter", "Unauthorized to mint vouchers"),
    Rule("InsufficientBalance", "Insufficient balance")
  ]

  /** The chain as written: each `error.message?.includes(name)` in turn;
      an absent message fails every test, and `error.message || default`
      replaces an absent or empty message by the generic text. */
  function HandleVoucherChainError(error: Thrown): (r: string)
    ensures r != ""
  {
    var m := if error.message.Some? then error.message.value else "";
    if error.message.Some? && Contains(m, "VoucherNotFound") then "Voucher not found"
    else if error.message.Some? && Contains(m, "VoucherAlreadyRedeemed") then "Voucher already redeemed"
    else if error.message.Some? && Contains(m, "VoucherExpired") then "Voucher has expired"
    else if error.message.Some? && Contains(m, "TokenNotSupported") then "Token not supported"
    else if error.message.Some? && Contains(m, "UnauthorizedMinter") then "Unauthorized to mint vouchers"
    else if error.message.Some? && Contains(m, "InsufficientBalance") then "Insufficient balance"
    else if m != "" then m
    else GenericError
  }

  /** The chain is the first-match classifier over its rule table, with
      the message itself (or the generic text) as the fallback. */
  lemma {:induction false} HandlerIsFirstMatch(message: string)
    ensures HandleVoucherChainError(Thrown(Some(message)))
         == Classify(message, HandlerRules, if message != "" then message else GenericError)
  {
    var rules := HandlerRules;
    assert rules[1..][1..][1..][1..][1..][1..] == [];
  }

  /** An absent message gives the generic text. */
  lemma AbsentMessage()
    ensures HandleVoucherChainError(Thrown(None)) == GenericError
  {
  }

  /** First match wins: when the message names rule `i`'s error and none
      listed before it, the reply is rule `i`'s, whatever else it names
      (with `i = 0`: any message naming `VoucherNotFound` reads 'Voucher
      not found', even if it also names `VoucherExpired`). */
  lemma HandlerPrecedence(message: string, i: nat)
    requires i < |HandlerRules|
    requires Contains(message, HandlerRules[i].pattern)
    requires forall j :: 0 <= j < i ==> !Contains(message, HandlerRules[j].pattern)
    ensures HandleVoucherChainError(Thrown(Some(message))) == HandlerRules[i].reply
  {
    HandlerIsFirstMatch(message);
    ClassifyPicksFirst(message, HandlerRules, if message != "" then message else GenericError, i);
  }

  /** A message naming none of the six errors is passed through verbatim;
      an empty one becomes the generic text. */
  lemma HandlerPassThrough(message: string)
    requires forall j :: 0 <= j < |HandlerRules| ==> !Contains(message, HandlerRules[j].pattern)
    ensures HandleVoucherChainError(Thrown(Some(message))) ==
            (if message == "" then GenericError else message)
  {
    HandlerIsFirstMatch(message);
    ClassifyFallback(message, HandlerRules, if message != "" then message else GenericError);
  }

  /** `VoucherNotExpired` has no rule of its own and names none of the six
      errors (in particular it does not contain `VoucherExpired`), so the
      bare revert name reaches the user unchanged. */
  lemma NotExpiredPassesThrough()
    ensures HandleVoucherChainError(Thrown(Some("VoucherNotExpired"))) == "VoucherNotExpired"
  {
    var m := "VoucherNotExpired";
    ShorterNotContains(m, "VoucherAlreadyRedeemed");
    ShorterNotContains(m, "UnauthorizedMinter");
    ShorterNotContains(m, "InsufficientBalance");
    NotContainsByFirst(m, "VoucherExpired", 7);
    NotContainsByFirst(m, "VoucherNotFound", 10);
    NotContainsByFirst(m, "TokenNotSupported", 0);
  }
}
