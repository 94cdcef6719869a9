# VoucherChain in Dafny

VoucherChain sells prepaid token vouchers. An authorised agent mints a
voucher by paying its value into the ledger contract and a minting fee to
the treasury. Only the keccak-256 digest of the secret code is stored.
Whoever knows the code can redeem the voucher to any address; they get
the value less a redemption fee, and the fee goes to the treasury. After
the expiry date, the agent who issued an unredeemed voucher can reclaim
its full value. A web client wraps the contract, turns its reverts into
user-facing messages, and offers React hooks for looking up a code and
for asking the contract to redeem it to the signed-in user's wallet
address. A sign-in dialog signs the user in with an emailed one-time code
or a wallet.

This project models that core and proves its properties:

- `LedgerSpec` (`ledger_spec.dfy`) is the ledger contract as the test suite
  pins it down, stated on values. A `Ledger` is the contract storage and
  the token balances it moves. Each call is a function to the new ledger
  or to the custom error it reverts with. `Inv` is the conservation
  invariant: per token, the contract's holding equals what its
  unredeemed vouchers owe, and the counters count. The equality holds
  because the modelled ledger is closed: tokens reach or leave the
  contract only through mint, redeem and reclaim (see "## Left out").
- `LedgerProps` (`ledger_props.dfy`) and `BatchProps` (`batch_props.dfy`)
  prove what the tests check. They cover the balance changes, the error
  precedence, the state each call leaves, conservation, the
  all-or-nothing batch, and the per-token batch fee.
- `VoucherLedger` (`voucher_chain.dfy`) is the same contract as a class
  whose fields each call updates in place. Every method is proved to
  leave exactly the state the `LedgerSpec` function gives, or to leave
  the state unchanged on a revert. Batch minting is a loop with its
  invariant.
- `Text` (`text.dfy`) models the JavaScript string operations the client
  relies on: `includes`, `trim`, an ordered first-match table and
  `BigNumber.toString()`.
- `VoucherChainErrors` (`voucher_chain_errors.dfy`) is
  `handleVoucherChainError`.
- `ContractClient` (`contract_client.dfy`) is `CONTRACT_ERRORS` and the
  `VoucherChainContract` methods `getVoucherStatus`, `redeemVoucher`,
  `mintVoucher` and `isTokenSupported`.
- `VoucherHooks` (`voucher_hooks.dfy`) is `useVoucherStatus` and
  `useVoucherRedemption`, as classes whose React state the handlers
  update step by step. The redemption hook's handle cannot sign (see
  "## Findings").
- `LoginModalComponent` (`login_modal.dfy`) is the dialog's state and its
  handlers.
- `Chain` (`chain.dfy`) holds the shared values: addresses, the idealised
  digest, receipts, and thrown errors.

Outside code becomes parameters:

- every remote call (RPC, wallet, authentication provider) is the value
  its promise settled with;
- `Date.now()` is a number of milliseconds;
- the block time is a number of seconds;
- `formatEther` is a function parameter;
- `parseEther` is its result, a wei amount or the error it threw;
- `keccak256(toUtf8Bytes(code))` is a free constructor on the code,
  which makes it injective.

Two details of the client shape the model:

- `isExpired` compares `Date.now()`, in milliseconds, with
  `expiry * 1000`, and a zero expiry never counts as expired
  (reactapp/lib/contract.ts:88, reactapp/hooks/useVoucherChain.ts:35).
- `handleVoucherChainError` tests six revert names in turn:
  `VoucherNotFound`, `VoucherAlreadyRedeemed`, `VoucherExpired`,
  `TokenNotSupported`, `UnauthorizedMinter` and `InsufficientBalance`.
  When the message names none of them, the message itself is returned.

## Model

| member | source | states |
|---|---|---|
| LedgerSpec.Fee | contract/test/voucherchain.ts:76 | the fee is `amount*rate/10000` truncated: `f*10000 <= amount*rate < f*10000 + 10000`; a rate of at most 10000 basis points never takes more than the amount |
| LedgerSpec.Credit | contract/test/voucherchain.ts:79-81 | a transfer in adds exactly `x` to one (account, token) balance and leaves every other balance as it was |
| LedgerSpec.Debit | contract/test/voucherchain.ts:79 | a transfer out takes exactly `x` from one balance that covers it and leaves every other balance as it was |
| LedgerSpec.Deployed | contract/test/voucherchain.ts:40-41 | a fresh deployment, whose fees are within the deploy script's 500 basis point cap, satisfies the invariant, has both counters at 0 and holds no token |
| LedgerProps.MintRejections | contract/test/voucherchain.ts:91-116 | a mint reverts with `UnauthorizedMinter` iff the caller is not a minter. It reverts with `TokenNotSupported` iff, beyond that, the token is not listed; then a zero value, then `DuplicateVoucherCode` iff the digest exists, then `InsufficientBalance`. It succeeds iff every check passes |
| LedgerProps.DuplicateNeverMints | contract/test/voucherchain.ts:97-105 | a digest already minted never mints again; for an authorised caller with a listed token and a nonzero value, the error is `DuplicateVoucherCode` |
| LedgerProps.MintEffects | contract/test/voucherchain.ts:76-81 | a successful mint debits the issuer `value + fee`, credits the treasury the fee and the contract exactly `value`, and changes no other balance. It records the voucher, adds one to `totalMinted`, and keeps the settings |
| LedgerProps.MintedStatus | contract/test/voucherchain.ts:83-88 | after a mint, the status of the code is: it exists, is not redeemed, has the given token and value, the caller as issuer, and the computed expiry |
| LedgerProps.MintPreservesInv | contract/test/voucherchain.ts:63-89 | a mint keeps conservation: per token, the contract holds what unredeemed vouchers owe, digests are listed once, and the counters count |
| LedgerProps.MintedCountsVouchers | contract/test/voucherchain.ts:486-488 | on every reachable ledger, `totalMinted` is the number of vouchers stored |
| LedgerProps.RedeemRejections | contract/test/voucherchain.ts:143-173 | a redemption reverts with `VoucherNotFound` iff the code was never minted. It reverts with `VoucherAlreadyRedeemed` iff the voucher is spent, and with `VoucherExpired` iff it is unspent and past its expiry |
| LedgerProps.RedeemSucceedsIff | contract/test/voucherchain.ts:126-173 | on a reachable ledger, a redemption succeeds iff the voucher exists, is unspent and is not past its expiry (the transfer can then not fail) |
| LedgerProps.RedeemEffects | contract/test/voucherchain.ts:130-140 | a redemption pays the recipient `value - fee` and the treasury the fee (payout + fee = value), takes `value` from the contract, marks the voucher redeemed, adds one to `totalRedeemed`, and keeps the treasury, fee rates, token list, minters and expiry settings |
| LedgerProps.RedeemPreservesInv | contract/test/voucherchain.ts:126-141 | a redemption keeps conservation |
| LedgerProps.ReclaimRejections | contract/test/voucherchain.ts:206-248 | a reclaim reverts, in this order: `VoucherNotFound` for an unminted code; `VoucherAlreadyRedeemed` for a spent voucher; `UnauthorizedMinter` for anyone but the issuer; `VoucherNotExpired` before expiry |
| LedgerProps.ReclaimEffects | contract/test/voucherchain.ts:186-203 | a reclaim is by the issuer after expiry. It credits the issuer the full value with no fee, takes the value from the contract, marks the voucher redeemed, and changes nothing else: other balances, counters, the treasury, fee rates, token list, minters and expiry settings are kept |
| LedgerProps.ReclaimSucceedsIff | contract/test/voucherchain.ts:182-248 | on a reachable ledger, a reclaim succeeds iff the voucher exists, is unspent, the caller is its issuer and it is past expiry |
| LedgerProps.ReclaimPreservesInv | contract/test/voucherchain.ts:182-204 | a reclaim keeps conservation |
| LedgerProps.RedeemOrReclaim | contract/test/voucherchain.ts:157-213 | for an unspent voucher, exactly one of "redeem now" and "the issuer reclaims now" succeeds; a voucher without expiry can never be reclaimed |
| LedgerProps.InvIgnoresSettings | contract/test/voucherchain.ts:412-441 | changing the token list, the minters or the fee rates (within the cap) keeps the invariant |
| LedgerProps.AdvancesTransitive | contract/test/voucherchain.ts:454-489 | "no voucher disappears, vouchers only go from unspent to spent, counters never decrease" composes over successive calls |
| LedgerProps.MintAdvances | contract/test/voucherchain.ts:462-479 | a mint only adds a voucher and raises `totalMinted` |
| LedgerProps.RedeemAdvances | contract/test/voucherchain.ts:482-484 | a redemption only spends one voucher and raises `totalRedeemed` |
| LedgerProps.ReclaimAdvances | contract/test/voucherchain.ts:194 | a reclaim only spends one voucher |
| LedgerProps.SpentStaysSpent | contract/test/voucherchain.ts:143-148 | once spent, a voucher's redemption and reclaim both revert with `VoucherAlreadyRedeemed`, whatever happens in between |
| LedgerProps.RedeemThenNoReclaim | contract/test/voucherchain.ts:143-148 | after a redemption, a second redemption or a reclaim of the same code reverts with `VoucherAlreadyRedeemed` |
| LedgerProps.ReclaimThenNoRedeem | contract/test/voucherchain.ts:233-248 | after a reclaim, a second reclaim or a redemption of the same code reverts with `VoucherAlreadyRedeemed` |
| BatchProps.BatchSizeError | contract/test/voucherchain.ts:365-385 | a batch reverts with `InvalidBatchSize` iff its four arrays do not have equal lengths |
| BatchProps.PrefixNeverBadSize | contract/test/voucherchain.ts:365-385 | once the lengths match, no entry's mint reports `InvalidBatchSize` |
| BatchProps.PrefixErrorSticks | contract/test/voucherchain.ts:258-290 | the first failing entry decides the batch's error; later entries change nothing |
| BatchProps.EmptyBatch | contract/test/voucherchain.ts:258-290 | an empty batch succeeds and changes nothing |
| BatchProps.BatchBalances | contract/test/voucherchain.ts:306-320 | after a successful batch, per token, the payer has paid the sum of the values plus the sum of the per-entry fees. The treasury has received those fees and the contract the values; other balances are unchanged |
| BatchProps.BatchRecords | contract/test/voucherchain.ts:322-329 | a successful batch keeps the earlier vouchers and records each entry's voucher under its digest. Its digests are fresh and distinct |
| BatchProps.BatchRecordsEntry | contract/test/voucherchain.ts:355-362 | entry `i` of a successful batch was new and is stored with its own token, value, the caller as issuer, and its expiry, unredeemed |
| BatchProps.BatchDigestsDistinct | contract/test/voucherchain.ts:259-263 | a batch that succeeds has pairwise distinct digests |
| BatchProps.RepeatedDigestFails | contract/test/voucherchain.ts:259-263 | a batch listing one digest twice reverts |
| BatchProps.BatchPreservesInv | contract/test/voucherchain.ts:258-330 | a successful batch keeps conservation and only adds vouchers |
| BatchProps.FeeSuperadditive | contract/test/voucherchain.ts:309-310 | the fee on a sum is at least the sum of the fees |
| BatchProps.ExactFeeIff | contract/test/voucherchain.ts:309-310 | a fee is exact (no truncation) iff `amount*rate` is a multiple of 10000 |
| BatchProps.FeeExactAdditive | contract/test/voucherchain.ts:309-310 | exact fees add up: the fee on the sum is the sum of the fees |
| BatchProps.BatchFeesVersusTotal | contract/test/voucherchain.ts:306-312 | the per-entry fees never exceed the fee on the per-token total. They equal it when every value is fee-divisible, as in the test |
| VoucherLedger.VoucherChain.constructor | contract/test/voucherchain.ts:40-41 | deployment gives the `Deployed` ledger, which satisfies the invariant |
| VoucherLedger.VoucherChain.AddSupportedToken | contract/test/voucherchain.ts:412-418 | the token is listed afterwards and nothing else changes |
| VoucherLedger.VoucherChain.RemoveSupportedToken | contract/test/voucherchain.ts:420-423 | the token is no longer listed and nothing else changes |
| VoucherLedger.VoucherChain.AddAuthorizedMinter | contract/test/voucherchain.ts:64 | the address may mint afterwards and nothing else changes |
| VoucherLedger.VoucherChain.UpdateFees | contract/test/voucherchain.ts:436-441 | the new rates take effect iff both are within the cap; otherwise it reverts with `InvalidFee` and nothing changes |
| VoucherLedger.VoucherChain.Mint | contract/test/voucherchain.ts:63-116 | the fields after the call are the `LedgerSpec.Mint` result, or unchanged with its error; the invariant is kept |
| VoucherLedger.VoucherChain.Redeem | contract/test/voucherchain.ts:126-173 | the fields after the call are the `LedgerSpec.Redeem` result, or unchanged with its error; the invariant is kept |
| VoucherLedger.VoucherChain.Reclaim | contract/test/voucherchain.ts:182-248 | the fields after the call are the `LedgerSpec.Reclaim` result, or unchanged with its error; the invariant is kept |
| VoucherLedger.VoucherChain.MintBatch | contract/test/voucherchain.ts:258-385 | a loop over the entries leaves the `LedgerSpec.MintBatch` result. On the first failing entry, every field is restored to its value before the call |
| VoucherLedger.VoucherChain.VoucherStatus | contract/test/voucherchain.ts:83-88 | the status tuple of the code: it exists iff its digest is stored, and it reports the stored issuer |
| VoucherLedger.VoucherChain.ContractStats | contract/test/voucherchain.ts:445-489 | `totalMinted` is the number of vouchers, `totalRedeemed` is the counter, and the rates are the current fees, within the cap |
| VoucherLedger.VoucherChain.IsTokenSupported | contract/test/voucherchain.ts:412-423 | true iff the token is listed |
| VoucherLedger.VoucherChain.ContractTokenBalance | contract/test/voucherchain.ts:430-433 | the contract's balance of the token, which in the closed ledger equals what its unredeemed vouchers in that token owe |
| Text.ContainsIff | reactapp/lib/errors/voucherChainErrors.ts:18 | the left-to-right scan of `includes` holds iff the pattern occurs as a contiguous slice |
| Text.ClassifyPicksFirst | reactapp/lib/errors/voucherChainErrors.ts:18-23 | an ordered chain returns rule `i`'s reply exactly when rule `i` matches and no earlier rule does |
| Text.ClassifyFallback | reactapp/lib/errors/voucherChainErrors.ts:24 | with no rule matching, the chain returns its fallback |
| Text.TrimShape | reactapp/hooks/useVoucherChain.ts:14 | `trim` keeps a contiguous middle part and removes only white space around it; the part kept neither starts nor ends with white space |
| Text.TrimEmptyIff | reactapp/hooks/useVoucherChain.ts:14 | `!s.trim()` holds iff `s` is empty or all white space |
| Text.DecimalRoundTrip | reactapp/lib/contract.ts:85-87 | reading back `toString()`'s digits gives the number again |
| Text.DecimalInjective | reactapp/lib/contract.ts:85-87 | distinct amounts render as distinct strings |
| VoucherChainErrors.HandleVoucherChainError | reactapp/lib/errors/voucherChainErrors.ts:17-24 | every error, with or without a message, yields a non-empty text |
| VoucherChainErrors.HandlerIsFirstMatch | reactapp/lib/errors/voucherChainErrors.ts:18-24 | the handler is the first-match chain over its six rules, in source order, with the message (or the generic text) as the fallback |
| VoucherChainErrors.AbsentMessage | reactapp/lib/errors/voucherChainErrors.ts:24 | an error without a message gives 'An error occurred' |
| VoucherChainErrors.HandlerPrecedence | reactapp/lib/errors/voucherChainErrors.ts:18-23 | a message naming rule `i`'s error and none before it gives rule `i`'s text, whatever later names it also contains |
| VoucherChainErrors.HandlerPassThrough | reactapp/lib/errors/voucherChainErrors.ts:24 | a message naming none of the six errors is returned unchanged; an empty one gives 'An error occurred' |
| VoucherChainErrors.NotExpiredPassesThrough | reactapp/lib/errors/voucherChainErrors.ts:18-24 | the bare name `VoucherNotExpired` contains none of the six names and reaches the user verbatim |
| ContractClient.TableKey | reactapp/lib/contract.ts:51-65 | every ledger error except the zero-value check has a `CONTRACT_ERRORS` key spelled like its name |
| ContractClient.RedeemFailure | reactapp/lib/contract.ts:104-116 | the thrown message is one of the three table messages, 'Failed to redeem voucher', or the TypeError of calling `includes` on a missing message |
| ContractClient.MintFailure | reactapp/lib/contract.ts:127-141 | the thrown message is one of the three table messages, 'Failed to mint voucher', or the TypeError of a missing message |
| ContractClient.RedeemFailureOrder | reactapp/lib/contract.ts:105-115 | `VoucherNotFound`, `VoucherAlreadyRedeemed` and `VoucherExpired` are tested in that order. The first one the message contains picks its table message; with none, the fallback |
| ContractClient.MintFailureOrder | reactapp/lib/contract.ts:130-140 | `UnauthorizedMinter`, `TokenNotSupported` and `InsufficientBalance` are tested in that order. The first one contained picks its table message; with none, the fallback |
| ContractClient.ClientRedeem | reactapp/lib/contract.ts:97-117 | the receipt is returned iff the transaction was sent and `wait()` confirmed it. A rejected send or confirmation gives the catch block's message |
| ContractClient.ClientMint | reactapp/lib/contract.ts:120-142 | a transaction is sent iff `parseEther` succeeded, carrying the code's digest, the token, the wei amount and the days. The receipt comes back iff it was confirmed; a parse error goes through the catch block |
| ContractClient.ClientMintIsRedeemable | reactapp/lib/contract.ts:122-125 | once the ledger accepts the sent mint, the plain code's status shows the voucher unspent with the caller as issuer, and its redemption finds it |
| ContractClient.ViewOf | reactapp/lib/contract.ts:81-88 | the record copies exists, isRedeemed, token and issuer. Value and expiry are decimal strings that read back to the numbers, and `isExpired` is the millisecond comparison |
| ContractClient.ClientStatus | reactapp/lib/contract.ts:78-94 | the record iff the call succeeded, else 'Failed to check voucher status' |
| ContractClient.ExpiryAgreement | reactapp/lib/contract.ts:88 | a voucher past expiry on the ledger shows as expired. The client differs only within the second that ends one second after expiry; a zero expiry never shows as expired |
| ContractClient.ShownRedeemableIsRedeemable | reactapp/lib/contract.ts:78-94 | a voucher shown as existing, unspent and unexpired can be redeemed on the ledger in the current second |
| ContractClient.ClientIsTokenSupported | reactapp/lib/contract.ts:178-185 | true only when the call succeeded, and then the contract's answer; a failed call gives false |
| VoucherHooks.VoucherDataOf | reactapp/hooks/useVoucherChain.ts:28-37 | the record copies the status fields, formats the value and keeps the raw value. Its `isExpired` is the client's predicate; an expiry past `Number.MAX_SAFE_INTEGER` throws `toNumber`'s fault instead |
| VoucherHooks.HookShownRedeemableIsRedeemable | reactapp/hooks/useVoucherChain.ts:28-37 | a record the hook shows as existing, unspent and unexpired belongs to a voucher the ledger redeems in the current second |
| VoucherHooks.HookExpiryAgreement | reactapp/hooks/useVoucherChain.ts:35 | a voucher past expiry on the ledger shows as expired, and one shown as expired is past expiry on the ledger one second later |
| VoucherHooks.VoucherStatusHook.constructor | reactapp/hooks/useVoucherChain.ts:9-11 | no record, not loading, no error, no call made |
| VoucherHooks.VoucherStatusHook.CheckVoucherStatus | reactapp/hooks/useVoucherChain.ts:13-48 | a blank code sets 'Please enter a voucher code', returns none and makes no call. Otherwise one call is made with loading on and no error; it ends with loading off. On success the record is kept and returned; on failure the old record stays and the handler's message is shown |
| VoucherHooks.RedemptionHook.constructor | reactapp/hooks/useVoucherChain.ts:56-57 | not redeeming, no error, nothing sent |
| VoucherHooks.RedemptionHook.RedeemVoucher | reactapp/hooks/useVoucherChain.ts:59-88 | with no wallet, it sets 'Please connect your wallet first' even for a blank code; then a blank code is refused. Otherwise it sends one transaction (code as typed, recipient the wallet address) with redeeming on and ends with redeeming off. It returns the receipt, or shows the handler's message |
| VoucherHooks.RedemptionHook.RedeemUnsigned | reactapp/hooks/useVoucherChain.ts:59-88 | the hook as written, with a contract handle that cannot sign: it never returns a receipt. The two guards behave as before, leaving `isRedeeming` and the request log unchanged; a request that passes them is logged once and always ends with redeeming off and the handler's message for the rejected send |
| LoginModalComponent.CodeSentAppend | reactapp/components/auth/LoginModal.tsx:31-36 | a later request never undoes an earlier successful code send, and a successful send counts as one |
| LoginModalComponent.LoginModal.constructor | reactapp/components/auth/LoginModal.tsx:13-17 | empty email and code, the email step, no error, not loading, no request made |
| LoginModalComponent.LoginModal.SetEmail | reactapp/components/auth/LoginModal.tsx:111 | the email field takes the typed text; the invariant holds |
| LoginModalComponent.LoginModal.SetCode | reactapp/components/auth/LoginModal.tsx:163 | the code field takes the typed text; the invariant holds |
| LoginModalComponent.LoginModal.HandleSendCode | reactapp/components/auth/LoginModal.tsx:22-39 | an empty email sets its message, keeps the step and makes no request. Otherwise one request is made with loading on and no error; the code step follows only a successful send, and a failure sets 'Failed to send code. Please try again.'. Loading is off after |
| LoginModalComponent.LoginModal.HandleLoginWithCode | reactapp/components/auth/LoginModal.tsx:41-57 | an empty code sets its message and makes no request. Otherwise one request is made with loading on and no error; a failure sets 'Invalid code. Please try again.'. The step is unchanged |
| LoginModalComponent.LoginModal.HandleWalletLogin | reactapp/components/auth/LoginModal.tsx:59-70 | one request is made with loading on and no error; a failure sets 'Failed to connect wallet. Please try again.'. Loading is off after |
| LoginModalComponent.LoginModal.BackToEmail | reactapp/components/auth/LoginModal.tsx:182 | the email step again; email, code and error are kept, and the invariant holds |

`VoucherLedger.VoucherChain` keeps `Valid()`, which is `Inv`, across every
method. `LoginModalComponent.LoginModal` keeps `Valid()` across every
method. That invariant says:

- nothing is loading between handlers;
- the code form shows only after some code was sent successfully;
- no request was ever made with an empty email or code.

## Left out

- The contract's Solidity source is not part of this model; the ledger follows its test suite.
- LedgerSpec.Mint: the check order minter, token, zero value, duplicate, balance is assumed, consistent with the tests. The tests fix only two pairs: an unauthorised caller with no tokens gets `UnauthorizedMinter` (contract/test/voucherchain.ts:91-95), and an unsupported token the agent does not hold gets `TokenNotSupported` (:107-116). Nothing fixes minter against token, where the zero-value check sits, or duplicate against balance. The zero-value error's name, `InvalidTokenValue`, is assumed too.
- LedgerSpec.ExpiryFor: the stored expiry `now + days * 86400` (seconds) is assumed. The tests only fix values consistent with it: one day is passed after two days (contract/test/voucherchain.ts:157-173), and thirty days is not passed at once (:206-213).
- LedgerSpec.StatusOf: the reply for a code never minted is assumed to be all zero: `exists` false, `isRedeemed` false, the zero address as token and issuer, and zero value and expiry. No test reads it.
- LedgerSpec.Reclaim: the order existence, spent, issuer, expiry is assumed, consistent with the tests.
- BatchProps.BatchSizeError: the tests show only that a length mismatch reverts with `InvalidBatchSize` (contract/test/voucherchain.ts:365-385). The "only if" half is an assumption: the contract may also refuse an empty or over-long batch under that name.
- BatchProps.EmptyBatch: that an empty batch succeeds and changes nothing is an assumption; the tests mint only batches of two and three entries.
- LedgerSpec.MintBatch: the minting fee is assumed to be charged per entry. The test computes it on each token's total (contract/test/voucherchain.ts:309-310); BatchProps.BatchFeesVersusTotal shows the two agree on fee-divisible values such as the tested ones, and per-entry fees never exceed the fee on the total.
- `expiryDays = 0`: the tests do not say whether it means "never expires" or "use the default". A ledger is built with either reading (`ZeroExpiry`).
- The reclaim counter: reclaim is assumed not to raise `totalRedeemed`, since no test counts it. The invariant only bounds `totalRedeemed` by the number of spent vouchers.
- Fee limits: `UpdateFees` is assumed to refuse rates above the deploy script's 500 basis point cap with `InvalidFee`. Deployment requires that cap (contract/scripts/deploy.ts:42-44).
- The agents: registration, agent statistics, commissions, `getAgentStats`, `getAgentTokenBalance`, `getTokenStats`. The tests check them only at their initial values, and the core does not depend on them.
- `Ownable` (`OwnableUnauthorizedAccount`), ERC-20 allowances and approvals, events, gas, reentrancy and concurrent callers. The ledger is a single sequential caller, and time is a parameter.
- VoucherLedger.VoucherChain.ContractTokenBalance: the equality of the contract's balance with what the unredeemed vouchers owe holds only in a closed ledger, and the same goes for `Inv` as kept by `LedgerSpec.Deployed`, `LedgerProps.MintPreservesInv`, `LedgerProps.RedeemPreservesInv`, `LedgerProps.ReclaimPreservesInv` and `BatchProps.BatchPreservesInv`. Two things are not modelled. First, a plain ERC-20 `transfer` into the contract (as at contract/test/voucherchain.ts:51-58) raises the real balance above what is owed. Second, the contract's own address is never a recipient, treasury or minter; `redeemVoucher(code, contract)` would in reality lower the balance by the fee only. What the real contract keeps is solvency: its balance is at least what the vouchers owe.
- Token balances are unbounded naturals. `uint256` overflow is not modelled, because no reachable amount in the tests comes near it.
- `keccak256` is an idealised injective digest. `toUtf8Bytes` failing on unpaired surrogates is not modelled.
- `formatEther` and `parseEther` are parameters: the decimal-ether conversion is not modelled.
- IEEE doubles: the client's `Date.now() > expiry * 1000` is compared in exact integers. Rounding above 2^53 milliseconds is not modelled.
- `Thrown` carries an optional string message. A rejection with `null`, or with an object whose `message` is not a string, is not modelled; for such a value `error.message?.includes` would itself throw a TypeError (reactapp/lib/errors/voucherChainErrors.ts:18).
- How a revert reaches the client: the model does not say how a custom error's name gets into `error.message`, since the client's ABI lists no error fragments. The catch-block lemmas hold for any message.
- The concrete client message for each bare revert name is not proved. Deciding `includes` between long string literals is too costly for the verifier. The order lemmas cover every message, and `DuplicateVoucherCode` and the zero-value error then fall to the generic mint message.
- `CONTRACT_ERRORS` is a total function from its 13 keys to one fixed text each; that the 13 texts are pairwise different is not proved.
- `getAgentStats`, `getContractStats` in the client, and the `TokenContract` wrapper (approve, allowance, balanceOf, token info) are thin renderings outside the core.
- `useContractStats`: it only logs its failure.
- The `console.error` logging in the catch blocks of the client calls (reactapp/lib/contract.ts:91, :102, :128, :182) is not modelled; it has no effect on what the calls return or throw.
- The "Contract not available" branches of both hooks cannot happen: `getVoucherChainContract` always returns a contract (lib/contracts/voucherChain.ts:7-15).
- `expiryDays` and every amount are naturals; a negative JavaScript number passed as `expiryDays` is not modelled.
- The dialog's `authenticated` view, the provider's own state after a successful login, and all rendering.
- The UI keeps a handler's button disabled while `isLoading`; calls arriving during a pending request are not modelled, because handlers run one at a time.

## Findings

| source | as written | input that shows it | evidently intended | confidence | as-written member | corrected member |
|---|---|---|---|---|---|---|
| reactapp/hooks/useVoucherChain.ts:74-78 | `getVoucherChainContract()` is called without a signer, so the contract sits on a bare `JsonRpcProvider` (reactapp/lib/errors/voucherChainErrors.ts:7-10, and the same `signer \|\| provider` factory at lib/contracts/voucherChain.ts:7-9; the file the `@/lib/contracts/voucherChain` alias reaches is not part of this model and is assumed to be that same factory). ethers then rejects `contract.redeemVoucher(...)` because sending a transaction requires a signer | any non-blank code with a connected wallet: the send is rejected, `tx.wait()` is never reached, and the hook returns `null` with the handler's message | the signer of the user's wallet is passed in, so the send reaches the chain and the receipt is returned once `wait()` confirms | not executed | VoucherHooks.RedemptionHook.RedeemUnsigned | VoucherHooks.RedemptionHook.RedeemVoucher |

- `VoucherHooks.RedemptionHook.RedeemUnsigned` is the hook as written. Its send is always rejected, and its contract states that it never returns a receipt, for any input.
- `VoucherHooks.RedemptionHook.RedeemVoucher` takes the settled send as a parameter, as it behaves with a signer. It returns the receipt iff the send went out and `wait()` confirmed it.
