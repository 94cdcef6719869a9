/** The web client's wrapper around the deployed contract
    (`VoucherChainContract`): the table of user-facing error messages, the
    record it builds from `getVoucherStatus`, and the calls `redeemVoucher`,
    `mintVoucher` and `isTokenSupported` with their catch blocks. The
    wrapper's fields (the ethers contract and signer) are set once by its
    constructor and never change, so each of its methods is a function of
    what the awaited remote calls produce. */
module ContractClient {
  import opened Chain
  import opened Text
  import L = LedgerSpec
  import P = LedgerProps

  /* ---------- CONTRACT_ERRORS ---------- */

  /** The thirteen keys of `CONTRACT_ERRORS`, in source order. */
  datatype ErrorName =
    | VoucherNotFound | VoucherAlreadyRedeemed | VoucherExpired | TokenNotSupported
    | UnauthorizedMinter | InsufficientBalance | InvalidFee | InvalidExpiry
    | DuplicateVoucherCode | VoucherNotExpired | AgentNotActive | InvalidBatchSize
    | TokenTransferFailed

  /** The key as the text the catch blocks search for. */
  function Key(n: ErrorName): string
  {
    match n
    case VoucherNotFound => "VoucherNotFound"
    case VoucherAlreadyRedeemed => "VoucherAlreadyRedeemed"
    case VoucherExpired => "VoucherExpired"
    case TokenNotSupported => "TokenNotSupported"
    case UnauthorizedMinter => "UnauthorizedMinter"
    case InsufficientBalance => "InsufficientBalance"
    case InvalidFee => "InvalidFee"
    case InvalidExpiry => "InvalidExpiry"
    case DuplicateVoucherCode => "DuplicateVoucherCode"
    case VoucherNotExpired => "VoucherNotExpired"
    case AgentNotActive => "AgentNotActive"
    case InvalidBatchSize => "InvalidBatchSize"
    case TokenTransferFailed => "TokenTransferFailed"
  }

  /** `CONTRACT_ERRORS[n]`: one fixed message per key. */
  function ContractError(n: ErrorName): string
  {
    match n
    case VoucherNotFound => "Invalid voucher code"
    case VoucherAlreadyRedeemed => "Voucher has already been redeemed"
    case VoucherExpired => "Voucher has expired"
    case TokenNotSupported => "Token not supported"
    case UnauthorizedMinter => "Not authorized to mint vouchers"
    case InsufficientBalance => "Insufficient token balance"
    case InvalidFee => "Invalid fee amount"
    case InvalidExpiry => "Invalid expiry date"
    case DuplicateVoucherCode => "Voucher code already exists"
    case VoucherNotExpired => "Voucher has not expired yet"
    case AgentNotActive => "Agent account is not active"
    case InvalidBatchSize => "Invalid batch size"
    case TokenTransferFailed => "Token transfer failed"
  }

  /** The Solidity name of each custom error the ledger reverts with. */
  function RevertName(e: L.LedgerError): string
  {
    match e
    case UnauthorizedMinter => "UnauthorizedMinter"
    case TokenNotSupported => "TokenNotSupported"
    case InvalidTokenValue => "InvalidTokenValue"
    case DuplicateVoucherCode => "DuplicateVoucherCode"
    case InsufficientBalance => "InsufficientBalance"
    case VoucherNotFound => "VoucherNotFound"
    case VoucherAlreadyRedeemed => "VoucherAlreadyRedeemed"
    case VoucherExpired => "VoucherExpired"
    case VoucherNotExpired => "VoucherNotExpired"
    case InvalidBatchSize => "InvalidBatchSize"
    case InvalidFee => "InvalidFee"
    case TokenTransferFailed => "TokenTransferFailed"
  }

  /** The table's key for a ledger error: the key spelled like the
      error's name, and none for the zero-value check, whose name the
      table does not list. */
  function TableKey(e: L.LedgerError): (k: Option<ErrorName>)
    ensures k.Some? ==> Key(k.value) == RevertName(e)
    ensures k.None? <==> e == L.InvalidTokenValue
  {
    match e
    case UnauthorizedMinter => Some(UnauthorizedMinter)
    case TokenNotSupported => Some(TokenNotSupported)
    case InvalidTokenValue => None
    case DuplicateVoucherCode => Some(DuplicateVoucherCode)
    case InsufficientBalance => Some(InsufficientBalance)
    case VoucherNotFound => Some(VoucherNotFound)
    case VoucherAlreadyRedeemed => Some(VoucherAlreadyRedeemed)
    case VoucherExpired => Some(VoucherExpired)
    case VoucherNotExpired => Some(VoucherNotExpired)
    case InvalidBatchSize => Some(InvalidBatchSize)
    case InvalidFee => Some(InvalidFee)
    case TokenTransferFailed => Some(TokenTransferFailed)
  }

  /* ---------- the catch blocks ---------- */

  /** What escapes a catch block that calls `error.message.includes` on an
      error without a message: the TypeError the runtime throws. */
  const IncludesOnUndefined: string := "Cannot read properties of undefined (reading 'includes')"

  const RedeemFallback: string := "Failed to redeem voucher"
  const MintFallback: string := "Failed to mint voucher"

  /** The tests of `redeemVoucher`'s catch block, in source order. */
  const RedeemRules: seq<Rule> := [
    Rule(Key(VoucherNotFound), ContractError(VoucherNotFound)),
    Rule(Key(VoucherAlreadyRedeemed), ContractError(VoucherAlreadyRedeemed)),
    Rule(Key(VoucherExpired), ContractError(VoucherExpired))
  ]

  /** The tests of `mintVoucher`'s catch block, in source order. */
  const MintRules: seq<Rule> := [
    Rule(Key(UnauthorizedMinter), ContractError(UnauthorizedMinter)),
    Rule(Key(TokenNotSupported), ContractError(TokenNotSupported)),
    Rule(Key(InsufficientBalance), ContractError(InsufficientBalance))
  ]

  /** The message of the Error a failed redemption throws. */
  function RedeemFailure(error: Thrown): (r: string)
    ensures r == IncludesOnUndefined || r == RedeemFallback
            || exists i :: 0 <= i < |RedeemRules| && r == RedeemRules[i].reply
  {
    match error.message
    case None => IncludesOnUndefined
    case Some(m) => Classify(m, RedeemRules, RedeemFallback)
  }

  /** The message of the Error a failed mint throws. */
  function MintFailure(error: Thrown): (r: string)
    ensures r == IncludesOnUndefined || r == MintFallback
            || exists i :: 0 <= i < |MintRules| && r == MintRules[i].reply
  {
    match error.message
    case None => IncludesOnUndefined
    case Some(m) => Classify(m, MintRules, MintFallback)
  }

  /** The redemption chain in full: the first of the three names the
      message contains decides the message thrown, and a message naming
      none of them gives the generic text. */
  lemma RedeemFailureOrder(m: string)
    ensures Contains(m, "VoucherNotFound") ==>
              RedeemFailure(Thrown(Some(m))) == ContractError(VoucherNotFound)
    ensures !Contains(m, "VoucherNotFound") && Contains(m, "VoucherAlreadyRedeemed") ==>
              RedeemFailure(Thrown(Some(m))) == ContractError(VoucherAlreadyRedeemed)
    ensures !Contains(m, "VoucherNotFound") && !Contains(m, "VoucherAlreadyRedeemed")
            && Contains(m, "VoucherExpired") ==>
              RedeemFailure(Thrown(Some(m))) == ContractError(VoucherExpired)
    ensures !Contains(m, "VoucherNotFound") && !Contains(m, "VoucherAlreadyRedeemed")
            && !Contains(m, "VoucherExpired") ==>
              RedeemFailure(Thrown(Some(m))) == RedeemFallback
  {
    var k := FirstMatch(m, RedeemRules);
    assert RedeemRules[1..][1..][1..] == [];
  }

  /** The mint chain in full, in the same way. */
  lemma MintFailureOrder(m: string)
    ensures Contains(m, "UnauthorizedMinter") ==>
              MintFailure(Thrown(Some(m))) == ContractError(UnauthorizedMinter)
    ensures !Contains(m, "UnauthorizedMinter") && Contains(m, "TokenNotSupported") ==>
              MintFailure(Thrown(Some(m))) == ContractError(TokenNotSupported)
    ensures !Contains(m, "UnauthorizedMinter") && !Contains(m, "TokenNotSupported")
            && Contains(m, "InsufficientBalance") ==>
              MintFailure(Thrown(Some(m))) == ContractError(InsufficientBalance)
    ensures !Contains(m, "UnauthorizedMinter") && !Contains(m, "TokenNotSupported")
            && !Contains(m, "InsufficientBalance") ==>
              MintFailure(Thrown(Some(m))) == MintFallback
  {
    var k := FirstMatch(m, MintRules);
    assert MintRules[1..][1..][1..] == [];
  }

  /* ---------- the write calls ---------- */

  /** `redeemVoucher(code, recipient)`: the receipt of the mined
      transaction, or the message of the Error it throws. */
  function ClientRedeem(outcome: TxOutcome): (r: Result<Receipt, string>)
    ensures r.Ok? <==> outcome.Sent? && outcome.confirmation.Ok?
    ensures r.Ok? ==> r.value == outcome.confirmation.value
    ensures outcome.SendRejected? ==> r == Err(RedeemFailure(outcome.sendError))
    ensures outcome.Sent? && outcome.confirmation.Err? ==> r == Err(RedeemFailure(outcome.confirmation.error))
  {
    match outcome
    case SendRejected(e) => Err(RedeemFailure(e))
    case Sent(Err(e)) => Err(RedeemFailure(e))
    case Sent(Ok(receipt)) => Ok(receipt)
  }

  /** The arguments `mintVoucher` sends to the contract. */
  datatype MintCall = MintCall(voucherHash: Digest, token: Address, tokenValue: nat, expiryDays: nat)

  /** What one `mintVoucher` call did: the transaction it sent, if any,
      and how it ended. */
  datatype MintAttempt = MintAttempt(sent: Option<MintCall>, result: Result<Receipt, string>)

  /** `mintVoucher(code, token, tokenValue, expiryDays)`. The code is
      hashed first; `parsed` is what `parseEther(tokenValue)` produced:
      the amount in wei, or what it threw, which the same catch block
      classifies. */
  function ClientMint(code: string, token: Address, parsed: Result<nat, Thrown>, expiryDays: nat,
                      outcome: TxOutcome): (a: MintAttempt)
    ensures a.sent.Some? <==> parsed.Ok?
    ensures a.sent.Some? ==> a.sent.value == MintCall(VoucherHash(code), token, parsed.value, expiryDays)
    ensures a.result.Ok? <==> parsed.Ok? && outcome.Sent? && outcome.confirmation.Ok?
    ensures a.result.Ok? ==> a.result.value == outcome.confirmation.value
    ensures parsed.Err? ==> a.result == Err(MintFailure(parsed.error))
  {
    var voucherHash := VoucherHash(code);
    match parsed
    case Err(e) => MintAttempt(None, Err(MintFailure(e)))
    case Ok(value) =>
      var call := MintCall(voucherHash, token, value, expiryDays);
      match outcome
      case SendRejected(e) => MintAttempt(Some(call), Err(MintFailure(e)))
      case Sent(Err(e)) => MintAttempt(Some(call), Err(MintFailure(e)))
      case Sent(Ok(receipt)) => MintAttempt(Some(call), Ok(receipt))
  }

  /** Hashing before sending is what makes the voucher redeemable by its
      plain code: once the ledger accepts the transaction the client sent,
      the status and the redemption of that code find the new voucher. */
  lemma ClientMintIsRedeemable(s: L.Ledger, caller: Address, now: nat, code: string, token: Address,
                               parsed: Result<nat, Thrown>, expiryDays: nat, outcome: TxOutcome,
                               recipient: Address, later: nat)
    requires ClientMint(code, token, parsed, expiryDays, outcome).sent.Some?
    requires var c := ClientMint(code, token, parsed, expiryDays, outcome).sent.value;
             L.Mint(s, caller, now, c.voucherHash, c.token, c.tokenValue, c.expiryDays).Ok?
    ensures var c := ClientMint(code, token, parsed, expiryDays, outcome).sent.value;
            var s' := L.Mint(s, caller, now, c.voucherHash, c.token, c.tokenValue, c.expiryDays).value;
            && L.StatusOf(s', code).voucherExists && !L.StatusOf(s', code).isRedeemed
            && L.StatusOf(s', code).issuer == caller
            && L.Redeem(s', code, recipient, later) != Err(L.VoucherNotFound)
            && L.Redeem(s', code, recipient, later) != Err(L.VoucherAlreadyRedeemed)
  {
  }

  /* ---------- getVoucherStatus ---------- */

  /** The record `getVoucherStatus` returns to its caller. */
  datatype StatusView = StatusView(
    voucherExists: bool, isRedeemed: bool, token: Address, tokenValue: string,
    issuer: Address, expiryTimestamp: string, isExpired: bool)

  /** `expiryTimestamp > 0 && Date.now() > expiryTimestamp * 1000`, with
      the clock in milliseconds. */
  predicate IsExpiredAt(expiry: nat, nowMs: nat) {
    expiry > 0 && nowMs > expiry * 1000
  }

  /** The record built from the contract's status tuple at `nowMs`. */
  function ViewOf(st: L.StatusTuple, nowMs: nat): (v: StatusView)
    ensures v.voucherExists == st.voucherExists && v.isRedeemed == st.isRedeemed
    ensures v.token == st.token && v.issuer == st.issuer
    ensures DecimalText(v.tokenValue) && DecimalValue(v.tokenValue) == st.tokenValue
    ensures DecimalText(v.expiryTimestamp) && DecimalValue(v.expiryTimestamp) == st.expiryTimestamp
    ensures v.isExpired <==> IsExpiredAt(st.expiryTimestamp, nowMs)
  {
    DecimalRoundTrip(st.tokenValue);
    DecimalRoundTrip(st.expiryTimestamp);
    StatusView(st.voucherExists, st.isRedeemed, st.token, Decimal(st.tokenValue),
               st.issuer, Decimal(st.expiryTimestamp), IsExpiredAt(st.expiryTimestamp, nowMs))
  }

  const StatusFailure: string := "Failed to check voucher status"

  /** `getVoucherStatus(code)`: the record, or the fixed message whatever
      the call threw. */
  function ClientStatus(reply: Result<L.StatusTuple, Thrown>, nowMs: nat): (r: Result<StatusView, string>)
    ensures r.Ok? <==> reply.Ok?
    ensures r.Err? ==> r.error == StatusFailure
    ensures r.Ok? ==> r.value == ViewOf(reply.value, nowMs)
  {
    match reply
    case Ok(st) => Ok(ViewOf(st, nowMs))
    case Err(_) => Err(StatusFailure)
  }

  /** The client's clock reading of expiry against the ledger's: a
      voucher the ledger treats as expired at second `nowMs / 1000` shows
      as expired, and the client runs ahead only within the second that
      ends at the expiry time plus one; a zero expiry never shows as
      expired. */
  lemma ExpiryAgreement(expiry: nat, nowMs: nat)
    ensures L.PastExpiry(expiry, nowMs / 1000) ==> IsExpiredAt(expiry, nowMs)
    ensures IsExpiredAt(expiry, nowMs) <==>
            L.PastExpiry(expiry, nowMs / 1000) || (expiry > 0 && nowMs / 1000 == expiry && nowMs % 1000 > 0)
    ensures !IsExpiredAt(0, nowMs)
  {
  }

  /** A voucher the client shows as existing, unspent and unexpired is
      redeemable on a reachable ledger at the current second. */
  lemma ShownRedeemableIsRedeemable(s: L.Ledger, code: string, recipient: Address, nowMs: nat)
    requires L.Inv(s)
    requires var v := ViewOf(L.StatusOf(s, code), nowMs);
             v.voucherExists && !v.isRedeemed && !v.isExpired
    ensures L.Redeem(s, code, recipient, nowMs / 1000).Ok?
  {
    P.RedeemSucceedsIff(s, code, recipient, nowMs / 1000);
  }

  /* ---------- isTokenSupported ---------- */

  /** `isTokenSupported(token)`: the contract's answer, or `false` when
      the call fails. */
  function ClientIsTokenSupported(reply: Result<bool, Thrown>): (yes: bool)
    ensures yes ==> reply.Ok?
    ensures reply.Ok? ==> yes == reply.value
  {
    match reply
    case Ok(b) => b
    case Err(_) => false
  }
}
