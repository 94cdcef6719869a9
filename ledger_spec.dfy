/** The voucher ledger contract as its test suite pins it down, stated on
    values: one `Ledger` value is the contract's storage together with the
    token balances it moves, and each operation is a function from the
    state before a call to either the state after it or the custom error
    the call reverts with (a revert leaves the state as it was). */
module LedgerSpec {
  import opened Chain

  /** Fee rates are in basis points: 1/10000 of the amount. */
  const BasisPoints: nat := 10000
  const SecondsPerDay: nat := 86400
  /** The deployment script refuses fee rates above 500 basis points. */
  const MaxFeeBps: nat := 500

  /** The contract's custom errors that these operations revert with.
      `InvalidTokenValue` stands for the zero-value check, whose error
      name the available sources do not show. */
  datatype LedgerError =
    | UnauthorizedMinter
    | TokenNotSupported
    | InvalidTokenValue
    | DuplicateVoucherCode
    | InsufficientBalance
    | VoucherNotFound
    | VoucherAlreadyRedeemed
    | VoucherExpired
    | VoucherNotExpired
    | InvalidBatchSize
    | InvalidFee
    | TokenTransferFailed

  /** What `expiryDays = 0` means at mint time; the sources do not settle
      it, so a ledger is built with one reading or the other. */
  datatype ZeroExpiry = NeverExpires | UseDefaultExpiry

  /** A minted voucher. `expiry` is a Unix time in seconds; 0 means the
      voucher never expires. */
  datatype Voucher = Voucher(token: Address, value: nat, issuer: Address, expiry: nat, redeemed: bool)

  /** The contract's storage, and the token balances it moves: `wallets`
      maps (account, token) to the account's balance of that token, `held`
      maps a token to the contract's own balance of it. `order` lists the
      minted digests oldest first. */
  datatype Ledger = Ledger(
    treasury: Address,
    defaultExpiryDays: nat,
    zeroExpiry: ZeroExpiry,
    mintingFee: nat,
    redemptionFee: nat,
    supported: set<Address>,
    minters: set<Address>,
    vouchers: map<Digest, Voucher>,
    order: seq<Digest>,
    wallets: map<(Address, Address), nat>,
    held: map<Address, nat>,
    totalMinted: nat,
    totalRedeemed: nat)

  /** `getVoucherStatus(code)`: (exists, isRedeemed, token, tokenValue,
      issuer, expiryTimestamp). */
  datatype StatusTuple = StatusTuple(
    voucherExists: bool, isRedeemed: bool, token: Address, tokenValue: nat,
    issuer: Address, expiryTimestamp: nat)

  /* ---------- arithmetic ---------- */

  /** `amount * rate / 10000` in unsigned integer arithmetic (truncating). */
  function Fee(amount: nat, rate: nat): (f: nat)
    ensures f * BasisPoints <= amount * rate < f * BasisPoints + BasisPoints
    ensures rate <= BasisPoints ==> f <= amount
  {
    var f := amount * rate / BasisPoints;
    assert rate <= BasisPoints ==> amount * rate <= amount * BasisPoints;
    f
  }

  /* ---------- balances ---------- */

  function Balance(w: map<(Address, Address), nat>, account: Address, token: Address): nat {
    if (account, token) in w then w[(account, token)] else 0
  }

  function WalletBalance(s: Ledger, account: Address, token: Address): nat {
    Balance(s.wallets, account, token)
  }

  /** The contract's own balance of `token` in a table of its holdings. */
  function Holding(held: map<Address, nat>, token: Address): nat {
    if token in held then held[token] else 0
  }

  /** `token.balanceOf(contract)`. */
  function Held(s: Ledger, token: Address): nat {
    Holding(s.held, token)
  }

  /** Adds `x` to one balance. */
  function Credit(w: map<(Address, Address), nat>, account: Address, token: Address, x: nat)
    : (w': map<(Address, Address), nat>)
    ensures Balance(w', account, token) == Balance(w, account, token) + x
    ensures forall a, t :: (a, t) != (account, token) ==> Balance(w', a, t) == Balance(w, a, t)
  {
    w[(account, token) := Balance(w, account, token) + x]
  }

  /** Takes `x` from one balance that holds at least `x`. */
  function Debit(w: map<(Address, Address), nat>, account: Address, token: Address, x: nat)
    : (w': map<(Address, Address), nat>)
    requires x <= Balance(w, account, token)
    ensures Balance(w', account, token) + x == Balance(w, account, token)
    ensures forall a, t :: (a, t) != (account, token) ==> Balance(w', a, t) == Balance(w, a, t)
  {
    w[(account, token) := Balance(w, account, token) - x]
  }

  /* ---------- time ---------- */

  /** The expiry recorded for a voucher minted at `now` with `days`,
      under the deployment's reading of `days = 0`. */
  function ExpiryFor(zeroExpiry: ZeroExpiry, defaultDays: nat, now: nat, days: nat): nat {
    if days > 0 then now + days * SecondsPerDay
    else if zeroExpiry == NeverExpires then 0
    else now + defaultDays * SecondsPerDay
  }

  /** A voucher with this expiry is past it at `now` (seconds). */
  predicate PastExpiry(expiry: nat, now: nat) {
    expiry != 0 && now > expiry
  }

  /* ---------- operations ---------- */

  /** `mintVoucher(hash, token, value, expiryDays)` called by `caller` at
      time `now`: the caller pays `value` to the contract and the minting
      fee to the treasury, and the voucher is recorded. */
  function Mint(s: Ledger, caller: Address, now: nat, hash: Digest, token: Address, value: nat, days: nat)
    : Result<Ledger, LedgerError>
  {
    var fee := Fee(value, s.mintingFee);
    if caller !in s.minters then Err(UnauthorizedMinter)
    else if token !in s.supported then Err(TokenNotSupported)
    else if value == 0 then Err(InvalidTokenValue)
    else if hash in s.vouchers then Err(DuplicateVoucherCode)
    else if WalletBalance(s, caller, token) < value + fee then Err(InsufficientBalance)
    else
      var paid := Debit(s.wallets, caller, token, value + fee);
      Ok(s.(
        vouchers := s.vouchers[hash := Voucher(token, value, caller, ExpiryFor(s.zeroExpiry, s.defaultExpiryDays, now, days), false)],
        order := s.order + [hash],
        wallets := Credit(paid, s.treasury, token, fee),
        held := s.held[token := Held(s, token) + value],
        totalMinted := s.totalMinted + 1))
  }

  /** `redeemVoucher(code, recipient)` at time `now`: whoever knows the
      code has the value, less the redemption fee, paid to `recipient`;
      the fee goes to the treasury. */
  function Redeem(s: Ledger, code: string, recipient: Address, now: nat): Result<Ledger, LedgerError> {
    var hash := VoucherHash(code);
    if hash !in s.vouchers then Err(VoucherNotFound)
    else
      var v := s.vouchers[hash];
      var fee := Fee(v.value, s.redemptionFee);
      if v.redeemed then Err(VoucherAlreadyRedeemed)
      else if PastExpiry(v.expiry, now) then Err(VoucherExpired)
      else if Held(s, v.token) < v.value || fee > v.value then Err(TokenTransferFailed)
      else
        var paid := Credit(s.wallets, recipient, v.token, v.value - fee);
        Ok(s.(
          vouchers := s.vouchers[hash := v.(redeemed := true)],
          wallets := Credit(paid, s.treasury, v.token, fee),
          held := s.held[v.token := Held(s, v.token) - v.value],
          totalRedeemed := s.totalRedeemed + 1))
  }

  /** `reclaimExpiredVoucher(code)` by `caller` at time `now`: the issuer
      of an expired, unredeemed voucher takes its full value back. */
  function Reclaim(s: Ledger, caller: Address, code: string, now: nat): Result<Ledger, LedgerError> {
    var hash := VoucherHash(code);
    if hash !in s.vouchers then Err(VoucherNotFound)
    else
      var v := s.vouchers[hash];
      if v.redeemed then Err(VoucherAlreadyRedeemed)
      else if caller != v.issuer then Err(UnauthorizedMinter)
      else if !PastExpiry(v.expiry, now) then Err(VoucherNotExpired)
      else if Held(s, v.token) < v.value then Err(TokenTransferFailed)
      else
        Ok(s.(
          vouchers := s.vouchers[hash := v.(redeemed := true)],
          wallets := Credit(s.wallets, v.issuer, v.token, v.value),
          held := s.held[v.token := Held(s, v.token) - v.value]))
  }

  /** The argument of `mintVoucherBatch`: four parallel arrays. */
  datatype VoucherBatch = VoucherBatch(
    voucherHashes: seq<Digest>, tokens: seq<Address>, tokenValues: seq<nat>, expiryDays: seq<nat>)

  predicate WellSized(b: VoucherBatch) {
    |b.tokens| == |b.voucherHashes| && |b.tokenValues| == |b.voucherHashes|
    && |b.expiryDays| == |b.voucherHashes|
  }

  /** Minting the first `n` entries of a batch one after the other; the
      first entry that fails decides the error. */
  function MintPrefix(s: Ledger, caller: Address, now: nat, b: VoucherBatch, n: nat)
    : Result<Ledger, LedgerError>
    requires WellSized(b) && n <= |b.voucherHashes|
    decreases n
  {
    if n == 0 then Ok(s)
    else
      match MintPrefix(s, caller, now, b, n - 1)
      case Err(e) => Err(e)
      case Ok(s') =>
        Mint(s', caller, now, b.voucherHashes[n - 1], b.tokens[n - 1], b.tokenValues[n - 1], b.expiryDays[n - 1])
  }

  /** `mintVoucherBatch(batch)`: all entries are minted or, the whole call
      reverting, none is. */
  function MintBatch(s: Ledger, caller: Address, now: nat, b: VoucherBatch): Result<Ledger, LedgerError> {
    if !WellSized(b) then Err(InvalidBatchSize)
    else MintPrefix(s, caller, now, b, |b.voucherHashes|)
  }

  /** `getVoucherStatus(code)`: the contract hashes the code and reports
      the record, or zeros for a code never minted. */
  function StatusOf(s: Ledger, code: string): StatusTuple {
    var hash := VoucherHash(code);
    if hash in s.vouchers then
      var v := s.vouchers[hash];
      StatusTuple(true, v.redeemed, v.token, v.value, v.issuer, v.expiry)
    else StatusTuple(false, false, ZeroAddress, 0, ZeroAddress, 0)
  }

  /* ---------- invariant ---------- */

  /** Sum of `f` over the vouchers listed in `hs`. */
  function Weight(vs: map<Digest, Voucher>, hs: seq<Digest>, f: Voucher -> nat): nat
    decreases |hs|
  {
    if hs == [] then 0
    else
      var h := hs[|hs| - 1];
      Weight(vs, hs[..|hs| - 1], f) + (if h in vs then f(vs[h]) else 0)
  }

  /** What a voucher still owes in `token`. */
  function Owed(token: Address): Voucher -> nat {
    (v: Voucher) => if v.token == token && !v.redeemed then v.value else 0
  }

  function Spent(): Voucher -> nat {
    (v: Voucher) => if v.redeemed then 1 else 0
  }

  /** Total value of the unredeemed vouchers in `token`. */
  function Outstanding(s: Ledger, token: Address): nat {
    Weight(s.vouchers, s.order, Owed(token))
  }

  /** Number of vouchers redeemed or reclaimed. */
  function SpentCount(s: Ledger): nat {
    Weight(s.vouchers, s.order, Spent())
  }

  predicate Distinct(hs: seq<Digest>) {
    forall i, j :: 0 <= i < j < |hs| ==> hs[i] != hs[j]
  }

  /** What every reachable ledger satisfies: fee rates within the deploy
      cap; each minted digest listed once; the contract holds, per token,
      exactly the value its unredeemed vouchers owe; `totalMinted` counts
      the mints and `totalRedeemed` is at most the vouchers spent. */
  ghost predicate Inv(s: Ledger) {
    && s.mintingFee <= MaxFeeBps && s.redemptionFee <= MaxFeeBps
    && Distinct(s.order)
    && (forall h :: h in s.vouchers <==> h in s.order)
    && (forall t :: Held(s, t) == Outstanding(s, t))
    && s.totalMinted == |s.order|
    && s.totalRedeemed <= SpentCount(s)
  }

  /** A freshly deployed contract: nothing minted, no token or minter
      listed, no balance held. */
  function Deployed(treasury: Address, mintingFee: nat, redemptionFee: nat, defaultExpiryDays: nat,
                    zeroExpiry: ZeroExpiry, wallets: map<(Address, Address), nat>): (s: Ledger)
    requires mintingFee <= MaxFeeBps && redemptionFee <= MaxFeeBps
    ensures Inv(s)
    ensures s.totalMinted == 0 && s.totalRedeemed == 0
    ensures forall t :: Held(s, t) == 0
  {
    Ledger(treasury, defaultExpiryDays, zeroExpiry, mintingFee, redemptionFee,
           {}, {}, map[], [], wallets, map[], 0, 0)
  }
}
