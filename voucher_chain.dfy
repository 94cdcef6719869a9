/** The voucher ledger as a stateful object: the contract's storage (and
    the token balances it moves) held in fields that each call updates in
    place. Every method is tied to the transition function of LedgerSpec:
    on success the new state is the function's result, on a revert the
    state is left as it was. */
module VoucherLedger {
  import opened Chain
  import opened LedgerSpec
  import opened LedgerProps
  import opened BatchProps

  class VoucherChain {
    const treasury: Address
    const defaultExpiryDays: nat
    const zeroExpiry: ZeroExpiry
    var mintingFee: nat
    var redemptionFee: nat
    var supported: set<Address>
    var minters: set<Address>
    var vouchers: map<Digest, Voucher>
    /** Digests in mint order; kept only for the proofs. */
    ghost var order: seq<Digest>
    var wallets: map<(Address, Address), nat>
    var held: map<Address, nat>
    var totalMinted: nat
    var totalRedeemed: nat

    /** The storage as a `Ledger` value. */
    ghost function Abs(): Ledger
      reads this
    {
      Ledger(treasury, defaultExpiryDays, zeroExpiry, mintingFee, redemptionFee, supported, minters,
             vouchers, order, wallets, held, totalMinted, totalRedeemed)
    }

    ghost predicate Valid()
      reads this
    {
      Inv(Abs())
    }

    /** Deployment with the treasury, both fee rates, the default expiry
        and the reading of `expiryDays = 0`; `wallets` are the token
        balances the accounts start with. */
    constructor (treasury: Address, mintingFee: nat, redemptionFee: nat, defaultExpiryDays: nat,
                 zeroExpiry: ZeroExpiry, wallets: map<(Address, Address), nat>)
      requires mintingFee <= MaxFeeBps && redemptionFee <= MaxFeeBps
      ensures Valid()
      ensures Abs() == Deployed(treasury, mintingFee, redemptionFee, defaultExpiryDays, zeroExpiry, wallets)
    {
      this.treasury := treasury;
      this.defaultExpiryDays := defaultExpiryDays;
      this.zeroExpiry := zeroExpiry;
      this.mintingFee := mintingFee;
      this.redemptionFee := redemptionFee;
      this.wallets := wallets;
      supported := {};
      minters := {};
      vouchers := map[];
      order := [];
      held := map[];
      totalMinted := 0;
      totalRedeemed := 0;
    }

    /* ---------- administration ---------- */

    method AddSupportedToken(token: Address)
      requires Valid()
      modifies this
      ensures Valid()
      ensures Abs() == old(Abs()).(supported := old(supported) + {token})
    {
      supported := supported + {token};
      InvIgnoresSettings(old(Abs()), Abs());
    }

    method RemoveSupportedToken(token: Address)
      requires Valid()
      modifies this
      ensures Valid()
      ensures Abs() == old(Abs()).(supported := old(supported) - {token})
    {
      supported := supported - {token};
      InvIgnoresSettings(old(Abs()), Abs());
    }

    method AddAuthorizedMinter(minter: Address)
      requires Valid()
      modifies this
      ensures Valid()
      ensures Abs() == old(Abs()).(minters := old(minters) + {minter})
    {
      minters := minters + {minter};
      InvIgnoresSettings(old(Abs()), Abs());
    }

    /** `updateFees(minting, redemption)`; a rate above the 500 basis
        point cap is refused and nothing changes. */
    method UpdateFees(minting: nat, redemption: nat) returns (err: Option<LedgerError>)
      requires Valid()
      modifies this
      ensures Valid()
      ensures err.None? <==> minting <= MaxFeeBps && redemption <= MaxFeeBps
      ensures err.Some? ==> err == Some(InvalidFee) && Abs() == old(Abs())
      ensures err.None? ==> Abs() == old(Abs()).(mintingFee := minting, redemptionFee := redemption)
    {
      if minting > MaxFeeBps || redemption > MaxFeeBps {
        return Some(InvalidFee);
      }
      mintingFee, redemptionFee := minting, redemption;
      err := None;
      InvIgnoresSettings(old(Abs()), Abs());
    }

    /* ---------- vouchers ---------- */

    /** The checks `mintVoucher` makes before it touches anything, in
        order; `None` when the mint goes ahead. */
    method MintChecks(caller: Address, hash: Digest, token: Address, value: nat, now: nat, days: nat)
      returns (err: Option<LedgerError>)
      ensures err.None? <==> LedgerSpec.Mint(Abs(), caller, now, hash, token, value, days).Ok?
      ensures err.Some? ==> LedgerSpec.Mint(Abs(), caller, now, hash, token, value, days) == Err(err.value)
    {
      var fee := value * mintingFee / BasisPoints;
      if caller !in minters { return Some(UnauthorizedMinter); }
      if token !in supported { return Some(TokenNotSupported); }
      if value == 0 { return Some(InvalidTokenValue); }
      if hash in vouchers { return Some(DuplicateVoucherCode); }
      if Balance(wallets, caller, token) < value + fee { return Some(InsufficientBalance); }
      err := None;
    }

    /** `mintVoucher(hash, token, value, days)` sent by `caller` at `now`. */
    method Mint(caller: Address, now: nat, hash: Digest, token: Address, value: nat, days: nat)
      returns (err: Option<LedgerError>)
      requires Valid()
      modifies this
      ensures Valid()
      ensures match LedgerSpec.Mint(old(Abs()), caller, now, hash, token, value, days)
              case Ok(s') => err == None && Abs() == s'
              case Err(e) => err == Some(e) && Abs() == old(Abs())
    {
      err := MintChecks(caller, hash, token, value, now, days);
      if err.None? {
        ghost var s := Abs();
        RecordMint(caller, now, hash, token, value, days);
        MintPreservesInv(s, caller, now, hash, token, value, days);
      }
    }

    /** The storage updates of a mint that passed its checks: the caller
        pays the value and the fee, the treasury receives the fee, the
        voucher is recorded and counted. */
    method RecordMint(caller: Address, now: nat, hash: Digest, token: Address, value: nat, days: nat)
      requires LedgerSpec.Mint(Abs(), caller, now, hash, token, value, days).Ok?
      modifies this`vouchers, this`order, this`wallets, this`held, this`totalMinted
      ensures Abs() == LedgerSpec.Mint(old(Abs()), caller, now, hash, token, value, days).value
    {
      ghost var s := Abs();
      MintResult(s, caller, now, hash, token, value, days);
      ghost var target := LedgerSpec.Mint(s, caller, now, hash, token, value, days).value;
      var fee := Fee(value, mintingFee);
      var expiry := ExpiryFor(zeroExpiry, defaultExpiryDays, now, days);
      vouchers := vouchers[hash := Voucher(token, value, caller, expiry, false)];
      order := order + [hash];
      wallets := Debit(wallets, caller, token, value + fee);
      wallets := Credit(wallets, treasury, token, fee);
      held := held[token := Holding(held, token) + value];
      totalMinted := totalMinted + 1;
      assert Abs() == target;
    }

    /** The checks `redeemVoucher` makes before it pays out, in order. */
    method RedeemChecks(code: string, recipient: Address, now: nat) returns (err: Option<LedgerError>)
      requires Valid()
      ensures err.None? <==> LedgerSpec.Redeem(Abs(), code, recipient, now).Ok?
      ensures err.Some? ==> LedgerSpec.Redeem(Abs(), code, recipient, now) == Err(err.value)
    {
      RedeemSucceedsIff(Abs(), code, recipient, now);
      var hash := VoucherHash(code);
      if hash !in vouchers { return Some(VoucherNotFound); }
      var v := vouchers[hash];
      if v.redeemed { return Some(VoucherAlreadyRedeemed); }
      if v.expiry != 0 && now > v.expiry { return Some(VoucherExpired); }
      err := None;
    }

    /** `redeemVoucher(code, recipient)` at `now`, by anyone. */
    method Redeem(code: string, recipient: Address, now: nat) returns (err: Option<LedgerError>)
      requires Valid()
      modifies this
      ensures Valid()
      ensures match LedgerSpec.Redeem(old(Abs()), code, recipient, now)
              case Ok(s') => err == None && Abs() == s'
              case Err(e) => err == Some(e) && Abs() == old(Abs())
    {
      err := RedeemChecks(code, recipient, now);
      if err.None? {
        ghost var s := Abs();
        RecordRedemption(code, recipient, now);
        RedeemPreservesInv(s, code, recipient, now);
      }
    }

    /** The storage updates of a redemption that passed its checks: the
        recipient receives the value less the fee, the treasury the fee,
        and the voucher is marked redeemed and counted. */
    method RecordRedemption(code: string, recipient: Address, now: nat)
      requires LedgerSpec.Redeem(Abs(), code, recipient, now).Ok?
      modifies this`vouchers, this`wallets, this`held, this`totalRedeemed
      ensures Abs() == LedgerSpec.Redeem(old(Abs()), code, recipient, now).value
    {
      var hash := VoucherHash(code);
      var v := vouchers[hash];
      var fee := Fee(v.value, redemptionFee);
      vouchers := vouchers[hash := v.(redeemed := true)];
      wallets := Credit(wallets, recipient, v.token, v.value - fee);
      wallets := Credit(wallets, treasury, v.token, fee);
      held := held[v.token := Holding(held, v.token) - v.value];
      totalRedeemed := totalRedeemed + 1;
    }

    /** The checks `reclaimExpiredVoucher` makes before it pays back, in
        order. */
    method ReclaimChecks(caller: Address, code: string, now: nat) returns (err: Option<LedgerError>)
      requires Valid()
      ensures err.None? <==> LedgerSpec.Reclaim(Abs(), caller, code, now).Ok?
      ensures err.Some? ==> LedgerSpec.Reclaim(Abs(), caller, code, now) == Err(err.value)
    {
      ReclaimSucceedsIff(Abs(), caller, code, now);
      var hash := VoucherHash(code);
      if hash !in vouchers { return Some(VoucherNotFound); }
      var v := vouchers[hash];
      if v.redeemed { return Some(VoucherAlreadyRedeemed); }
      if caller != v.issuer { return Some(UnauthorizedMinter); }
      if !(v.expiry != 0 && now > v.expiry) { return Some(VoucherNotExpired); }
      err := None;
    }

    /** `reclaimExpiredVoucher(code)` sent by `caller` at `now`. */
    method Reclaim(caller: Address, code: string, now: nat) returns (err: Option<LedgerError>)
      requires Valid()
      modifies this
      ensures Valid()
      ensures match LedgerSpec.Reclaim(old(Abs()), caller, code, now)
              case Ok(s') => err == None && Abs() == s'
              case Err(e) => err == Some(e) && Abs() == old(Abs())
    {
      err := ReclaimChecks(caller, code, now);
      if err.None? {
        ghost var s := Abs();
        RecordReclaim(caller, code, now);
        ReclaimPreservesInv(s, caller, code, now);
      }
    }

    /** The storage updates of a reclaim that passed its checks: the
        issuer gets the whole value back and the voucher is marked
        redeemed. */
    method RecordReclaim(caller: Address, code: string, now: nat)
      requires LedgerSpec.Reclaim(Abs(), caller, code, now).Ok?
      modifies this`vouchers, this`wallets, this`held
      ensures Abs() == LedgerSpec.Reclaim(old(Abs()), caller, code, now).value
    {
      var hash := VoucherHash(code);
      var v := vouchers[hash];
      vouchers := vouchers[hash := v.(redeemed := true)];
      wallets := Credit(wallets, v.issuer, v.token, v.value);
      held := held[v.token := Holding(held, v.token) - v.value];
    }

    /** `mintVoucherBatch(batch)`: when one entry fails the whole call
        reverts. */
    method MintBatch(caller: Address, now: nat, b: VoucherBatch) returns (err: Option<LedgerError>)
      requires Valid()
      modifies this
      ensures Valid()
      ensures match LedgerSpec.MintBatch(old(Abs()), caller, now, b)
              case Ok(s') => err == None && Abs() == s'
              case Err(e) => err == Some(e) && Abs() == old(Abs())
    {
      if !(|b.tokens| == |b.voucherHashes| && |b.tokenValues| == |b.voucherHashes|
           && |b.expiryDays| == |b.voucherHashes|) {
        return Some(InvalidBatchSize);
      }
      ghost var s := Abs();
      err := MintEntries(caller, now, b);
      if err.None? {
        BatchPreservesInv(s, caller, now, b, |b.voucherHashes|);
      }
    }

    /** The entries of a well-sized batch, minted in order; at the first
        failing entry the storage is put back as it was before the first
        one. */
    method MintEntries(caller: Address, now: nat, b: VoucherBatch) returns (err: Option<LedgerError>)
      requires WellSized(b)
      modifies this`vouchers, this`order, this`wallets, this`held, this`totalMinted
      ensures match MintPrefix(old(Abs()), caller, now, b, |b.voucherHashes|)
              case Ok(s') => err == None && Abs() == s'
              case Err(e) => err == Some(e) && Abs() == old(Abs())
    {
      var vouchers0, wallets0, held0, totalMinted0 := vouchers, wallets, held, totalMinted;
      ghost var order0 := order;
      err := MintInOrder(caller, now, b);
      if err.Some? {
        vouchers, wallets, held, totalMinted := vouchers0, wallets0, held0, totalMinted0;
        order := order0;
      }
    }

    /** Mints the entries of a well-sized batch one after the other and
        stops at the first that fails; what a failure leaves behind is
        discarded by the caller. */
    method MintInOrder(caller: Address, now: nat, b: VoucherBatch) returns (err: Option<LedgerError>)
      requires WellSized(b)
      modifies this`vouchers, this`order, this`wallets, this`held, this`totalMinted
      ensures match MintPrefix(old(Abs()), caller, now, b, |b.voucherHashes|)
              case Ok(s') => err == None && Abs() == s'
              case Err(e) => err == Some(e)
    {
      ghost var s := Abs();
      var n := |b.voucherHashes|;
      var i := 0;
      err := None;
      while i < n && err.None?
        invariant 0 <= i <= n
        invariant err.None? ==> MintPrefix(s, caller, now, b, i) == Ok(Abs())
        invariant err.Some? ==> MintPrefix(s, caller, now, b, i) == Err(err.value)
      {
        err := MintEntry(s, caller, now, b, i);
        i := i + 1;
      }
      if err.Some? {
        PrefixErrorSticks(s, caller, now, b, i, n);
      }
    }

    /** Entry `i` of a batch whose first `i` entries are already minted. */
    method MintEntry(ghost s: Ledger, caller: Address, now: nat, b: VoucherBatch, i: nat)
      returns (err: Option<LedgerError>)
      requires WellSized(b) && i < |b.voucherHashes|
      requires MintPrefix(s, caller, now, b, i) == Ok(Abs())
      modifies this`vouchers, this`order, this`wallets, this`held, this`totalMinted
      ensures match MintPrefix(s, caller, now, b, i + 1)
              case Ok(s') => err == None && Abs() == s'
              case Err(e) => err == Some(e)
    {
      err := MintChecks(caller, b.voucherHashes[i], b.tokens[i], b.tokenValues[i], now, b.expiryDays[i]);
      if err.None? {
        RecordMint(caller, now, b.voucherHashes[i], b.tokens[i], b.tokenValues[i], b.expiryDays[i]);
      }
    }

    /* ---------- views ---------- */

    /** `getVoucherStatus(code)`. */
    method VoucherStatus(code: string) returns (st: StatusTuple)
      requires Valid()
      ensures st == StatusOf(Abs(), code)
      ensures st.voucherExists <==> VoucherHash(code) in vouchers
      ensures st.voucherExists ==> st.issuer == vouchers[VoucherHash(code)].issuer
                                   && st.isRedeemed == vouchers[VoucherHash(code)].redeemed
    {
      var hash := VoucherHash(code);
      if hash in vouchers {
        var v := vouchers[hash];
        st := StatusTuple(true, v.redeemed, v.token, v.value, v.issuer, v.expiry);
      } else {
        st := StatusTuple(false, false, ZeroAddress, 0, ZeroAddress, 0);
      }
    }

    /** `getContractStats()`: (totalMinted, totalRedeemed, mintingFeeRate,
        redemptionFeeRate). The counter of mints equals the number of
        vouchers on record. */
    method ContractStats() returns (minted: nat, redeemed: nat, mintingRate: nat, redemptionRate: nat)
      requires Valid()
      ensures minted == |vouchers| && redeemed == totalRedeemed
      ensures mintingRate == mintingFee <= MaxFeeBps && redemptionRate == redemptionFee <= MaxFeeBps
    {
      MintedCountsVouchers(Abs());
      minted, redeemed, mintingRate, redemptionRate := totalMinted, totalRedeemed, mintingFee, redemptionFee;
    }

    method IsTokenSupported(token: Address) returns (yes: bool)
      ensures yes <==> token in supported
    {
      yes := token in supported;
    }

    /** `getContractTokenBalance(token)`: equal on a reachable state to
        the value its unredeemed vouchers in that token owe. */
    method ContractTokenBalance(token: Address) returns (balance: nat)
      requires Valid()
      ensures balance == Held(Abs(), token) == Outstanding(Abs(), token)
    {
      balance := Holding(held, token);
    }
  }
}
