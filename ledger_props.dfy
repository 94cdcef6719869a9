/** What the voucher ledger guarantees, proved about the transition
    functions of LedgerSpec: the balance changes each test of the suite
    checks, the errors each call reverts with, the invariant every call
    keeps, and that a voucher is spent at most once. */
module LedgerProps {
  import opened Chain
  import opened LedgerSpec

  /* ---------- sums over the minted vouchers ---------- */

  /** Changing an unlisted voucher does not change a sum over the list. */
  lemma {:induction false} WeightFresh(vs: map<Digest, Voucher>, hs: seq<Digest>, h: Digest, v: Voucher, f: Voucher -> nat)
    requires h !in hs
    ensures Weight(vs[h := v], hs, f) == Weight(vs, hs, f)
    decreases |hs|
  {
    if hs != [] {
      WeightFresh(vs, hs[..|hs| - 1], h, v, f);
    }
  }

  lemma WeightAppend(vs: map<Digest, Voucher>, hs: seq<Digest>, h: Digest, f: Voucher -> nat)
    ensures Weight(vs, hs + [h], f) == Weight(vs, hs, f) + (if h in vs then f(vs[h]) else 0)
  {
    assert (hs + [h])[..|hs|] == hs;
  }

  /** Replacing one listed voucher changes the sum by the difference. */
  lemma {:induction false} WeightUpdate(vs: map<Digest, Voucher>, hs: seq<Digest>, h: Digest, v: Voucher, f: Voucher -> nat)
    requires Distinct(hs) && h in hs && h in vs
    ensures Weight(vs[h := v], hs, f) + f(vs[h]) == Weight(vs, hs, f) + f(v)
    decreases |hs|
  {
    var init, last := hs[..|hs| - 1], hs[|hs| - 1];
    assert hs == init + [last];
    assert Distinct(init);
    if last == h {
      assert h !in init;
      WeightFresh(vs, init, h, v, f);
    } else {
      WeightUpdate(vs, init, h, v, f);
    }
  }

  /** A listed voucher contributes at most the whole sum. */
  lemma {:induction false} WeightAtLeast(vs: map<Digest, Voucher>, hs: seq<Digest>, h: Digest, f: Voucher -> nat)
    requires h in hs && h in vs
    ensures f(vs[h]) <= Weight(vs, hs, f)
    decreases |hs|
  {
    var init, last := hs[..|hs| - 1], hs[|hs| - 1];
    assert hs == init + [last];
    if last != h {
      WeightAtLeast(vs, init, h, f);
    }
  }

  /** The invariant is about the vouchers, the contract's balances, the
      counters and the fee cap only; whitelists, minters and wallets do
      not enter it. */
  lemma InvIgnoresSettings(s: Ledger, s': Ledger)
    requires Inv(s)
    requires s'.vouchers == s.vouchers && s'.order == s.order && s'.held == s.held
    requires s'.totalMinted == s.totalMinted && s'.totalRedeemed == s.totalRedeemed
    requires s'.mintingFee <= MaxFeeBps && s'.redemptionFee <= MaxFeeBps
    ensures Inv(s')
  {
    forall t ensures Held(s', t) == Outstanding(s', t) {
      assert Held(s, t) == Outstanding(s, t);
    }
  }

  /** A list without repetitions has as many elements as entries. */
  lemma {:induction false} DistinctCount(hs: seq<Digest>)
    requires Distinct(hs)
    ensures |set h | h in hs| == |hs|
    decreases |hs|
  {
    if hs != [] {
      var init, last := hs[..|hs| - 1], hs[|hs| - 1];
      assert hs == init + [last];
      assert Distinct(init);
      DistinctCount(init);
      assert (set h | h in hs) == (set h | h in init) + {last};
      assert last !in (set h | h in init);
    }
  }

  /** On a reachable ledger the mint counter is the number of vouchers on
      record. */
  lemma MintedCountsVouchers(s: Ledger)
    requires Inv(s)
    ensures s.totalMinted == |s.vouchers|
  {
    DistinctCount(s.order);
    assert s.vouchers.Keys == set h | h in s.order;
  }

  /* ---------- minting ---------- */

  /** Each rejection of `mintVoucher`, and the order the checks are made
      in: authorisation, whitelist, value, duplicate digest, funds. */
  lemma MintRejections(s: Ledger, caller: Address, now: nat, hash: Digest, token: Address, value: nat, days: nat)
    ensures Mint(s, caller, now, hash, token, value, days) == Err(UnauthorizedMinter)
            <==> caller !in s.minters
    ensures Mint(s, caller, now, hash, token, value, days) == Err(TokenNotSupported)
            <==> caller in s.minters && token !in s.supported
    ensures Mint(s, caller, now, hash, token, value, days) == Err(InvalidTokenValue)
            <==> caller in s.minters && token in s.supported && value == 0
    ensures Mint(s, caller, now, hash, token, value, days) == Err(DuplicateVoucherCode)
            <==> caller in s.minters && token in s.supported && value > 0 && hash in s.vouchers
    ensures Mint(s, caller, now, hash, token, value, days) == Err(InsufficientBalance)
            <==> caller in s.minters && token in s.supported && value > 0 && hash !in s.vouchers
                 && WalletBalance(s, caller, token) < value + Fee(value, s.mintingFee)
    ensures Mint(s, caller, now, hash, token, value, days).Ok?
            <==> caller in s.minters && token in s.supported && value > 0 && hash !in s.vouchers
                 && WalletBalance(s, caller, token) >= value + Fee(value, s.mintingFee)
  {
  }

  /** A digest already minted can never be minted again, whatever the
      token, value and expiry. */
  lemma DuplicateNeverMints(s: Ledger, caller: Address, now: nat, hash: Digest, token: Address, value: nat, days: nat)
    requires hash in s.vouchers
    ensures !Mint(s, caller, now, hash, token, value, days).Ok?
    ensures caller in s.minters && token in s.supported && value > 0 ==>
            Mint(s, caller, now, hash, token, value, days) == Err(DuplicateVoucherCode)
  {
  }

  /** A successful mint: the issuer pays `value + fee`, the contract gains
      `value`, the treasury gains `fee`, nothing else moves; the voucher
      is recorded as unredeemed with the caller as issuer, and the mint
      counter goes up by one. */
  lemma MintEffects(s: Ledger, caller: Address, now: nat, hash: Digest, token: Address, value: nat, days: nat)
    requires Mint(s, caller, now, hash, token, value, days).Ok?
    ensures var s' := Mint(s, caller, now, hash, token, value, days).value;
            var fee := Fee(value, s.mintingFee);
            && (caller != s.treasury ==>
                  && WalletBalance(s', caller, token) + value + fee == WalletBalance(s, caller, token)
                  && WalletBalance(s', s.treasury, token) == WalletBalance(s, s.treasury, token) + fee)
            && (caller == s.treasury ==>
                  WalletBalance(s', caller, token) + value == WalletBalance(s, caller, token))
            && (forall a, t :: (a, t) != (caller, token) && (a, t) != (s.treasury, token) ==>
                  WalletBalance(s', a, t) == WalletBalance(s, a, t))
            && Held(s', token) == Held(s, token) + value
            && (forall t :: t != token ==> Held(s', t) == Held(s, t))
            && hash !in s.vouchers
            && s'.vouchers == s.vouchers[hash := Voucher(token, value, caller, ExpiryFor(s.zeroExpiry, s.defaultExpiryDays, now, days), false)]
            && s'.totalMinted == s.totalMinted + 1 && s'.totalRedeemed == s.totalRedeemed
            && s'.treasury == s.treasury && s'.mintingFee == s.mintingFee
            && s'.redemptionFee == s.redemptionFee && s'.zeroExpiry == s.zeroExpiry
            && s'.defaultExpiryDays == s.defaultExpiryDays
            && s'.supported == s.supported && s'.minters == s.minters
  {
  }

  /** The record part of a successful mint alone. */
  lemma MintRecord(s: Ledger, caller: Address, now: nat, hash: Digest, token: Address, value: nat, days: nat)
    requires Mint(s, caller, now, hash, token, value, days).Ok?
    ensures var s' := Mint(s, caller, now, hash, token, value, days).value;
            && hash !in s.vouchers
            && s'.vouchers == s.vouchers[hash := Voucher(token, value, caller, ExpiryFor(s.zeroExpiry, s.defaultExpiryDays, now, days), false)]
            && s'.zeroExpiry == s.zeroExpiry && s'.defaultExpiryDays == s.defaultExpiryDays
  {
  }

  /** The whole state after a successful mint, field by field. */
  lemma MintResult(s: Ledger, caller: Address, now: nat, hash: Digest, token: Address, value: nat, days: nat)
    requires Mint(s, caller, now, hash, token, value, days).Ok?
    ensures var fee := Fee(value, s.mintingFee);
            value + fee <= Balance(s.wallets, caller, token)
            && Mint(s, caller, now, hash, token, value, days).value
               == s.(vouchers := s.vouchers[hash := Voucher(token, value, caller,
                                                            ExpiryFor(s.zeroExpiry, s.defaultExpiryDays, now, days), false)],
                     order := s.order + [hash],
                     wallets := Credit(Debit(s.wallets, caller, token, value + fee), s.treasury, token, fee),
                     held := s.held[token := Holding(s.held, token) + value],
                     totalMinted := s.totalMinted + 1)
  {
  }

  /** After a mint, `getVoucherStatus` of the voucher's code reports it as
      existing and unredeemed with the given token, value and issuer. */
  lemma MintedStatus(s: Ledger, caller: Address, now: nat, code: string, token: Address, value: nat, days: nat)
    requires Mint(s, caller, now, VoucherHash(code), token, value, days).Ok?
    ensures StatusOf(Mint(s, caller, now, VoucherHash(code), token, value, days).value, code)
         == StatusTuple(true, false, token, value, caller, ExpiryFor(s.zeroExpiry, s.defaultExpiryDays, now, days))
  {
  }

  /** The sums the invariant is about, after a mint: one more voucher,
      owing its value in its own token and nothing in any other. */
  lemma MintSums(s: Ledger, s': Ledger, hash: Digest, v: Voucher)
    requires hash !in s.order && !v.redeemed
    requires s'.vouchers == s.vouchers[hash := v] && s'.order == s.order + [hash]
    ensures forall t :: Outstanding(s', t) == Outstanding(s, t) + (if t == v.token then v.value else 0)
    ensures SpentCount(s') == SpentCount(s)
  {
    forall t ensures Outstanding(s', t) == Outstanding(s, t) + (if t == v.token then v.value else 0) {
      WeightAppend(s'.vouchers, s.order, hash, Owed(t));
      WeightFresh(s.vouchers, s.order, hash, v, Owed(t));
    }
    WeightAppend(s'.vouchers, s.order, hash, Spent());
    WeightFresh(s.vouchers, s.order, hash, v, Spent());
  }

  lemma AppendDistinct(hs: seq<Digest>, h: Digest)
    requires Distinct(hs) && h !in hs
    ensures Distinct(hs + [h])
  {
    var hs' := hs + [h];
    forall i, j | 0 <= i < j < |hs'| ensures hs'[i] != hs'[j] {
      if j == |hs| { assert hs'[i] == hs[i]; }
    }
  }

  /** Recording one new unredeemed voucher, with the contract's balance
      in its token raised by its value and the mint counter by one, keeps
      the invariant. */
  lemma InvAfterRecord(s: Ledger, s': Ledger, hash: Digest, v: Voucher)
    requires Inv(s) && hash !in s.vouchers && !v.redeemed
    requires s'.vouchers == s.vouchers[hash := v] && s'.order == s.order + [hash]
    requires s'.held == s.held[v.token := Holding(s.held, v.token) + v.value]
    requires s'.totalMinted == s.totalMinted + 1 && s'.totalRedeemed == s.totalRedeemed
    requires s'.mintingFee == s.mintingFee && s'.redemptionFee == s.redemptionFee
    ensures Inv(s')
  {
    MintSums(s, s', hash, v);
    AppendDistinct(s.order, hash);
    forall t ensures Held(s', t) == Outstanding(s', t) {
      assert Held(s, t) == Outstanding(s, t);
    }
  }

  lemma MintPreservesInv(s: Ledger, caller: Address, now: nat, hash: Digest, token: Address, value: nat, days: nat)
    requires Inv(s)
    requires Mint(s, caller, now, hash, token, value, days).Ok?
    ensures Inv(Mint(s, caller, now, hash, token, value, days).value)
  {
    MintResult(s, caller, now, hash, token, value, days);
    InvAfterRecord(s, Mint(s, caller, now, hash, token, value, days).value, hash,
                   Voucher(token, value, caller, ExpiryFor(s.zeroExpiry, s.defaultExpiryDays, now, days), false));
  }

  /* ---------- redemption ---------- */

  /** Each rejection of `redeemVoucher`, in the order the checks are made:
      unknown code, already spent, expired. */
  lemma RedeemRejections(s: Ledger, code: string, recipient: Address, now: nat)
    ensures Redeem(s, code, recipient, now) == Err(VoucherNotFound)
            <==> VoucherHash(code) !in s.vouchers
    ensures Redeem(s, code, recipient, now) == Err(VoucherAlreadyRedeemed)
            <==> VoucherHash(code) in s.vouchers && s.vouchers[VoucherHash(code)].redeemed
    ensures Redeem(s, code, recipient, now) == Err(VoucherExpired)
            <==> VoucherHash(code) in s.vouchers && !s.vouchers[VoucherHash(code)].redeemed
                 && PastExpiry(s.vouchers[VoucherHash(code)].expiry, now)
  {
  }

  /** On a reachable ledger the payout transfers of a redemption cannot
      fail, so it succeeds exactly when the voucher exists, is unspent and
      is not past its expiry. */
  lemma RedeemSucceedsIff(s: Ledger, code: string, recipient: Address, now: nat)
    requires Inv(s)
    ensures Redeem(s, code, recipient, now).Ok? <==>
            VoucherHash(code) in s.vouchers && !s.vouchers[VoucherHash(code)].redeemed
            && !PastExpiry(s.vouchers[VoucherHash(code)].expiry, now)
  {
    var hash := VoucherHash(code);
    if hash in s.vouchers && !s.vouchers[hash].redeemed {
      var v := s.vouchers[hash];
      WeightAtLeast(s.vouchers, s.order, hash, Owed(v.token));
      assert Held(s, v.token) == Outstanding(s, v.token);
    }
  }

  /** A redemption pays the recipient `value - fee` and the treasury the
      fee, which add up to the voucher's value; the contract gives up the
      value; the voucher becomes redeemed and the redemption counter goes
      up by one. */
  lemma RedeemEffects(s: Ledger, code: string, recipient: Address, now: nat)
    requires Redeem(s, code, recipient, now).Ok?
    ensures var s' := Redeem(s, code, recipient, now).value;
            var v := s.vouchers[VoucherHash(code)];
            var fee := Fee(v.value, s.redemptionFee);
            var payout := v.value - fee;
            && payout + fee == v.value
            && (recipient != s.treasury ==>
                  && WalletBalance(s', recipient, v.token) == WalletBalance(s, recipient, v.token) + payout
                  && WalletBalance(s', s.treasury, v.token) == WalletBalance(s, s.treasury, v.token) + fee)
            && (recipient == s.treasury ==>
                  WalletBalance(s', recipient, v.token) == WalletBalance(s, recipient, v.token) + v.value)
            && (forall a, t :: (a, t) != (recipient, v.token) && (a, t) != (s.treasury, v.token) ==>
                  WalletBalance(s', a, t) == WalletBalance(s, a, t))
            && Held(s', v.token) + v.value == Held(s, v.token)
            && (forall t :: t != v.token ==> Held(s', t) == Held(s, t))
            && s'.vouchers == s.vouchers[VoucherHash(code) := v.(redeemed := true)]
            && s'.totalRedeemed == s.totalRedeemed + 1 && s'.totalMinted == s.totalMinted
            && s'.order == s.order
            && s'.treasury == s.treasury && s'.mintingFee == s.mintingFee
            && s'.redemptionFee == s.redemptionFee && s'.zeroExpiry == s.zeroExpiry
            && s'.defaultExpiryDays == s.defaultExpiryDays
            && s'.supported == s.supported && s'.minters == s.minters
  {
  }

  /** The sums the invariant is about, after a voucher is spent: its
      value is no longer owed and one more voucher counts as spent. */
  lemma SpendSums(s: Ledger, s': Ledger, hash: Digest)
    requires Inv(s) && hash in s.vouchers && !s.vouchers[hash].redeemed
    requires s'.vouchers == s.vouchers[hash := s.vouchers[hash].(redeemed := true)] && s'.order == s.order
    ensures forall t :: Outstanding(s', t) + (if t == s.vouchers[hash].token then s.vouchers[hash].value else 0)
                        == Outstanding(s, t)
    ensures SpentCount(s') == SpentCount(s) + 1
  {
    var v := s.vouchers[hash];
    assert hash in s.order;
    forall t ensures Outstanding(s', t) + (if t == v.token then v.value else 0) == Outstanding(s, t) {
      WeightUpdate(s.vouchers, s.order, hash, v.(redeemed := true), Owed(t));
    }
    WeightUpdate(s.vouchers, s.order, hash, v.(redeemed := true), Spent());
  }

  lemma RedeemPreservesInv(s: Ledger, code: string, recipient: Address, now: nat)
    requires Inv(s)
    requires Redeem(s, code, recipient, now).Ok?
    ensures Inv(Redeem(s, code, recipient, now).value)
  {
    var s' := Redeem(s, code, recipient, now).value;
    var hash := VoucherHash(code);
    RedeemEffects(s, code, recipient, now);
    SpendSums(s, s', hash);
    forall t ensures Held(s', t) == Outstanding(s', t) {
      assert Held(s, t) == Outstanding(s, t);
    }
  }

  /* ---------- reclaim ---------- */

  /** Each rejection of `reclaimExpiredVoucher`, in the order the checks
      are made: unknown code, already spent, not the issuer, not expired. */
  lemma ReclaimRejections(s: Ledger, caller: Address, code: string, now: nat)
    ensures Reclaim(s, caller, code, now) == Err(VoucherNotFound)
            <==> VoucherHash(code) !in s.vouchers
    ensures Reclaim(s, caller, code, now) == Err(VoucherAlreadyRedeemed)
            <==> VoucherHash(code) in s.vouchers && s.vouchers[VoucherHash(code)].redeemed
    ensures Reclaim(s, caller, code, now) == Err(UnauthorizedMinter)
            <==> VoucherHash(code) in s.vouchers && !s.vouchers[VoucherHash(code)].redeemed
                 && caller != s.vouchers[VoucherHash(code)].issuer
    ensures Reclaim(s, caller, code, now) == Err(VoucherNotExpired)
            <==> VoucherHash(code) in s.vouchers && !s.vouchers[VoucherHash(code)].redeemed
                 && caller == s.vouchers[VoucherHash(code)].issuer
                 && !PastExpiry(s.vouchers[VoucherHash(code)].expiry, now)
  {
  }

  /** A reclaim returns the full value to the issuer, with no fee; the
      contract gives up the value and the voucher becomes redeemed. */
  lemma ReclaimEffects(s: Ledger, caller: Address, code: string, now: nat)
    requires Reclaim(s, caller, code, now).Ok?
    ensures var s' := Reclaim(s, caller, code, now).value;
            var v := s.vouchers[VoucherHash(code)];
            && caller == v.issuer && PastExpiry(v.expiry, now)
            && WalletBalance(s', caller, v.token) == WalletBalance(s, caller, v.token) + v.value
            && (forall a, t :: (a, t) != (caller, v.token) ==> WalletBalance(s', a, t) == WalletBalance(s, a, t))
            && Held(s', v.token) + v.value == Held(s, v.token)
            && (forall t :: t != v.token ==> Held(s', t) == Held(s, t))
            && s'.vouchers == s.vouchers[VoucherHash(code) := v.(redeemed := true)]
            && s'.totalRedeemed == s.totalRedeemed && s'.totalMinted == s.totalMinted
            && s'.order == s.order
            && s'.treasury == s.treasury && s'.mintingFee == s.mintingFee
            && s'.redemptionFee == s.redemptionFee && s'.zeroExpiry == s.zeroExpiry
            && s'.defaultExpiryDays == s.defaultExpiryDays
            && s'.supported == s.supported && s'.minters == s.minters
  {
  }

  /** On a reachable ledger a reclaim succeeds exactly when the caller is
      the issuer of an unspent voucher past its expiry. */
  lemma ReclaimSucceedsIff(s: Ledger, caller: Address, code: string, now: nat)
    requires Inv(s)
    ensures Reclaim(s, caller, code, now).Ok? <==>
            VoucherHash(code) in s.vouchers && !s.vouchers[VoucherHash(code)].redeemed
            && caller == s.vouchers[VoucherHash(code)].issuer
            && PastExpiry(s.vouchers[VoucherHash(code)].expiry, now)
  {
    var hash := VoucherHash(code);
    if hash in s.vouchers && !s.vouchers[hash].redeemed {
      var v := s.vouchers[hash];
      WeightAtLeast(s.vouchers, s.order, hash, Owed(v.token));
      assert Held(s, v.token) == Outstanding(s, v.token);
    }
  }

  lemma ReclaimPreservesInv(s: Ledger, caller: Address, code: string, now: nat)
    requires Inv(s)
    requires Reclaim(s, caller, code, now).Ok?
    ensures Inv(Reclaim(s, caller, code, now).value)
  {
    var s' := Reclaim(s, caller, code, now).value;
    var hash := VoucherHash(code);
    ReclaimEffects(s, caller, code, now);
    SpendSums(s, s', hash);
    forall t ensures Held(s', t) == Outstanding(s', t) {
      assert Held(s, t) == Outstanding(s, t);
    }
  }

  /** At any moment exactly one way out is open for an unspent voucher:
      before or at its expiry a holder may redeem it, after its expiry
      only its issuer may reclaim it. A voucher that never expires can
      never be reclaimed. */
  lemma RedeemOrReclaim(s: Ledger, code: string, recipient: Address, now: nat)
    requires Inv(s)
    requires VoucherHash(code) in s.vouchers && !s.vouchers[VoucherHash(code)].redeemed
    ensures var issuer := s.vouchers[VoucherHash(code)].issuer;
            Redeem(s, code, recipient, now).Ok? <==> !Reclaim(s, issuer, code, now).Ok?
    ensures s.vouchers[VoucherHash(code)].expiry == 0 ==>
            forall caller :: !Reclaim(s, caller, code, now).Ok?
  {
    RedeemSucceedsIff(s, code, recipient, now);
    ReclaimSucceedsIff(s, s.vouchers[VoucherHash(code)].issuer, code, now);
  }

  /* ---------- spent at most once ---------- */

  /** `s'` is reachable from `s` by successful calls: vouchers are never
      removed or altered except for the one step from unredeemed to
      redeemed, and the counters never go down. */
  ghost predicate Advances(s: Ledger, s': Ledger) {
    && (forall h :: h in s.vouchers ==> h in s'.vouchers)
    && (forall h :: h in s.vouchers ==>
          s'.vouchers[h] == s.vouchers[h] || s'.vouchers[h] == s.vouchers[h].(redeemed := true))
    && s.totalMinted <= s'.totalMinted && s.totalRedeemed <= s'.totalRedeemed
  }

  lemma AdvancesTransitive(s: Ledger, s': Ledger, s'': Ledger)
    requires Advances(s, s') && Advances(s', s'')
    ensures Advances(s, s'')
  {
  }

  lemma MintAdvances(s: Ledger, caller: Address, now: nat, hash: Digest, token: Address, value: nat, days: nat)
    requires Mint(s, caller, now, hash, token, value, days).Ok?
    ensures Advances(s, Mint(s, caller, now, hash, token, value, days).value)
  {
  }

  lemma RedeemAdvances(s: Ledger, code: string, recipient: Address, now: nat)
    requires Redeem(s, code, recipient, now).Ok?
    ensures Advances(s, Redeem(s, code, recipient, now).value)
  {
  }

  lemma ReclaimAdvances(s: Ledger, caller: Address, code: string, now: nat)
    requires Reclaim(s, caller, code, now).Ok?
    ensures Advances(s, Reclaim(s, caller, code, now).value)
  {
  }

  /** Once spent, a voucher stays spent: on any later ledger every
      redemption and every reclaim of its code is refused with
      `VoucherAlreadyRedeemed`, whoever calls and whenever. */
  lemma SpentStaysSpent(s: Ledger, s': Ledger, code: string, caller: Address, recipient: Address, now: nat)
    requires VoucherHash(code) in s.vouchers && s.vouchers[VoucherHash(code)].redeemed
    requires Advances(s, s')
    ensures Redeem(s', code, recipient, now) == Err(VoucherAlreadyRedeemed)
    ensures Reclaim(s', caller, code, now) == Err(VoucherAlreadyRedeemed)
  {
  }

  /** A holder redemption and an issuer reclaim exclude each other: after
      either succeeds the other is refused. */
  lemma RedeemThenNoReclaim(s: Ledger, code: string, recipient: Address, now: nat, caller: Address, later: nat)
    requires Redeem(s, code, recipient, now).Ok?
    ensures Reclaim(Redeem(s, code, recipient, now).value, caller, code, later) == Err(VoucherAlreadyRedeemed)
    ensures Redeem(Redeem(s, code, recipient, now).value, code, recipient, later) == Err(VoucherAlreadyRedeemed)
  {
    RedeemAdvances(s, code, recipient, now);
    SpentStaysSpent(Redeem(s, code, recipient, now).value, Redeem(s, code, recipient, now).value,
                    code, caller, recipient, later);
  }

  lemma ReclaimThenNoRedeem(s: Ledger, caller: Address, code: string, now: nat, recipient: Address, later: nat)
    requires Reclaim(s, caller, code, now).Ok?
    ensures Redeem(Reclaim(s, caller, code, now).value, code, recipient, later) == Err(VoucherAlreadyRedeemed)
    ensures Reclaim(Reclaim(s, caller, code, now).value, caller, code, later) == Err(VoucherAlreadyRedeemed)
  {
    var s' := Reclaim(s, caller, code, now).value;
    SpentStaysSpent(s', s', code, caller, recipient, later);
  }
}
