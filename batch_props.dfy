/** `mintVoucherBatch`: what a batch mint moves and records, shown to
    agree with minting the entries one by one, and the relation between
    the per-entry minting fees and the fee on each token's total. */
module BatchProps {
  import opened Chain
  import opened LedgerSpec
  import opened LedgerProps

  /** Value of the first `n` entries that are in `token`. */
  function BatchTotal(b: VoucherBatch, n: nat, token: Address): nat
    requires WellSized(b) && n <= |b.voucherHashes|
    decreases n
  {
    if n == 0 then 0
    else BatchTotal(b, n - 1, token) + (if b.tokens[n - 1] == token then b.tokenValues[n - 1] else 0)
  }

  /** Minting fees charged on the first `n` entries that are in `token`. */
  function BatchFees(b: VoucherBatch, n: nat, token: Address, rate: nat): nat
    requires WellSized(b) && n <= |b.voucherHashes|
    decreases n
  {
    if n == 0 then 0
    else BatchFees(b, n - 1, token, rate) + (if b.tokens[n - 1] == token then Fee(b.tokenValues[n - 1], rate) else 0)
  }

  /** Only a batch whose four arrays differ in length is refused with
      `InvalidBatchSize`: no entry's mint ever reports it. */
  lemma {:induction false} PrefixNeverBadSize(s: Ledger, caller: Address, now: nat, b: VoucherBatch, n: nat)
    requires WellSized(b) && n <= |b.voucherHashes|
    ensures MintPrefix(s, caller, now, b, n) != Err(InvalidBatchSize)
    decreases n
  {
    if n > 0 {
      PrefixNeverBadSize(s, caller, now, b, n - 1);
    }
  }

  lemma BatchSizeError(s: Ledger, caller: Address, now: nat, b: VoucherBatch)
    ensures MintBatch(s, caller, now, b) == Err(InvalidBatchSize) <==> !WellSized(b)
  {
    if WellSized(b) {
      PrefixNeverBadSize(s, caller, now, b, |b.voucherHashes|);
    }
  }

  /** The first failing entry decides the outcome of the whole batch. */
  lemma {:induction false} PrefixErrorSticks(s: Ledger, caller: Address, now: nat, b: VoucherBatch, k: nat, m: nat)
    requires WellSized(b) && k <= m <= |b.voucherHashes|
    requires MintPrefix(s, caller, now, b, k).Err?
    ensures MintPrefix(s, caller, now, b, m) == MintPrefix(s, caller, now, b, k)
    decreases m - k
  {
    if k < m {
      PrefixErrorSticks(s, caller, now, b, k + 1, m);
    }
  }

  /** An empty batch succeeds and changes nothing. */
  lemma EmptyBatch(s: Ledger, caller: Address, now: nat)
    ensures MintBatch(s, caller, now, VoucherBatch([], [], [], [])) == Ok(s)
  {
  }

  /** How the balances of `s'` relate to those of `s` once the first `n`
      entries of a batch are minted by `caller`: the caller pays each
      token's total value plus the fees on its entries, the treasury
      receives those fees, the contract receives the totals, no other
      account is touched, the settings are kept and the mint counter has
      gone up by `n`. */
  ghost predicate BalancesAfter(s: Ledger, s': Ledger, caller: Address, b: VoucherBatch, n: nat)
    requires WellSized(b) && n <= |b.voucherHashes|
  {
    && (forall t :: Held(s', t) == Held(s, t) + BatchTotal(b, n, t))
    && (caller != s.treasury ==> forall t ::
          && WalletBalance(s', caller, t) + BatchTotal(b, n, t) + BatchFees(b, n, t, s.mintingFee)
             == WalletBalance(s, caller, t)
          && WalletBalance(s', s.treasury, t) == WalletBalance(s, s.treasury, t) + BatchFees(b, n, t, s.mintingFee))
    && (caller == s.treasury ==> forall t ::
          WalletBalance(s', caller, t) + BatchTotal(b, n, t) == WalletBalance(s, caller, t))
    && (forall a, t :: a != caller && a != s.treasury ==> WalletBalance(s', a, t) == WalletBalance(s, a, t))
    && s'.treasury == s.treasury && s'.mintingFee == s.mintingFee
    && s'.redemptionFee == s.redemptionFee && s'.zeroExpiry == s.zeroExpiry
    && s'.defaultExpiryDays == s.defaultExpiryDays
    && s'.supported == s.supported && s'.minters == s.minters
    && s'.totalMinted == s.totalMinted + n && s'.totalRedeemed == s.totalRedeemed
  }

  /** One more entry, whose mint moved the balances as `MintEffects`
      states, extends `BalancesAfter` by one. */
  lemma BalancesStep(s: Ledger, s1: Ledger, s2: Ledger, caller: Address, b: VoucherBatch, n: nat)
    requires WellSized(b) && 0 < n <= |b.voucherHashes|
    requires BalancesAfter(s, s1, caller, b, n - 1)
    requires var token, value := b.tokens[n - 1], b.tokenValues[n - 1];
             var fee := Fee(value, s1.mintingFee);
             && (caller != s1.treasury ==>
                   && WalletBalance(s2, caller, token) + value + fee == WalletBalance(s1, caller, token)
                   && WalletBalance(s2, s1.treasury, token) == WalletBalance(s1, s1.treasury, token) + fee)
             && (caller == s1.treasury ==>
                   WalletBalance(s2, caller, token) + value == WalletBalance(s1, caller, token))
             && (forall a, t :: (a, t) != (caller, token) && (a, t) != (s1.treasury, token) ==>
                   WalletBalance(s2, a, t) == WalletBalance(s1, a, t))
             && Held(s2, token) == Held(s1, token) + value
             && (forall t :: t != token ==> Held(s2, t) == Held(s1, t))
             && s2.totalMinted == s1.totalMinted + 1 && s2.totalRedeemed == s1.totalRedeemed
             && s2.treasury == s1.treasury && s2.mintingFee == s1.mintingFee
             && s2.redemptionFee == s1.redemptionFee && s2.zeroExpiry == s1.zeroExpiry
             && s2.defaultExpiryDays == s1.defaultExpiryDays
             && s2.supported == s1.supported && s2.minters == s1.minters
    ensures BalancesAfter(s, s2, caller, b, n)
  {
    HeldStep(s, s1, s2, b, n);
    if caller != s.treasury {
      PayerStep(s, s1, s2, caller, b, n);
    } else {
      TreasuryPayerStep(s, s1, s2, caller, b, n);
    }
  }

  lemma HeldStep(s: Ledger, s1: Ledger, s2: Ledger, b: VoucherBatch, n: nat)
    requires WellSized(b) && 0 < n <= |b.voucherHashes|
    requires forall t :: Held(s1, t) == Held(s, t) + BatchTotal(b, n - 1, t)
    requires Held(s2, b.tokens[n - 1]) == Held(s1, b.tokens[n - 1]) + b.tokenValues[n - 1]
    requires forall t :: t != b.tokens[n - 1] ==> Held(s2, t) == Held(s1, t)
    ensures forall t :: Held(s2, t) == Held(s, t) + BatchTotal(b, n, t)
  {
    forall t ensures Held(s2, t) == Held(s, t) + BatchTotal(b, n, t) {
      assert Held(s1, t) == Held(s, t) + BatchTotal(b, n - 1, t);
    }
  }

  lemma PayerStep(s: Ledger, s1: Ledger, s2: Ledger, caller: Address, b: VoucherBatch, n: nat)
    requires WellSized(b) && 0 < n <= |b.voucherHashes|
    requires caller != s.treasury && s1.treasury == s.treasury && s1.mintingFee == s.mintingFee
    requires forall t ::
               && WalletBalance(s1, caller, t) + BatchTotal(b, n - 1, t) + BatchFees(b, n - 1, t, s.mintingFee)
                  == WalletBalance(s, caller, t)
               && WalletBalance(s1, s.treasury, t) == WalletBalance(s, s.treasury, t) + BatchFees(b, n - 1, t, s.mintingFee)
    requires var token, value := b.tokens[n - 1], b.tokenValues[n - 1];
             var fee := Fee(value, s.mintingFee);
             && WalletBalance(s2, caller, token) + value + fee == WalletBalance(s1, caller, token)
             && WalletBalance(s2, s.treasury, token) == WalletBalance(s1, s.treasury, token) + fee
             && (forall a, t :: (a, t) != (caller, token) && (a, t) != (s.treasury, token) ==>
                   WalletBalance(s2, a, t) == WalletBalance(s1, a, t))
    ensures forall t ::
              && WalletBalance(s2, caller, t) + BatchTotal(b, n, t) + BatchFees(b, n, t, s.mintingFee)
                 == WalletBalance(s, caller, t)
              && WalletBalance(s2, s.treasury, t) == WalletBalance(s, s.treasury, t) + BatchFees(b, n, t, s.mintingFee)
  {
    forall t
      ensures WalletBalance(s2, caller, t) + BatchTotal(b, n, t) + BatchFees(b, n, t, s.mintingFee)
              == WalletBalance(s, caller, t)
      ensures WalletBalance(s2, s.treasury, t) == WalletBalance(s, s.treasury, t) + BatchFees(b, n, t, s.mintingFee)
    {
      assert WalletBalance(s1, caller, t) + BatchTotal(b, n - 1, t) + BatchFees(b, n - 1, t, s.mintingFee)
             == WalletBalance(s, caller, t);
      assert WalletBalance(s1, s.treasury, t) == WalletBalance(s, s.treasury, t) + BatchFees(b, n - 1, t, s.mintingFee);
    }
  }

  lemma TreasuryPayerStep(s: Ledger, s1: Ledger, s2: Ledger, caller: Address, b: VoucherBatch, n: nat)
    requires WellSized(b) && 0 < n <= |b.voucherHashes|
    requires caller == s.treasury && s1.treasury == s.treasury
    requires forall t :: WalletBalance(s1, caller, t) + BatchTotal(b, n - 1, t) == WalletBalance(s, caller, t)
    requires WalletBalance(s2, caller, b.tokens[n - 1]) + b.tokenValues[n - 1] == WalletBalance(s1, caller, b.tokens[n - 1])
    requires forall t :: t != b.tokens[n - 1] ==> WalletBalance(s2, caller, t) == WalletBalance(s1, caller, t)
    ensures forall t :: WalletBalance(s2, caller, t) + BatchTotal(b, n, t) == WalletBalance(s, caller, t)
  {
    forall t ensures WalletBalance(s2, caller, t) + BatchTotal(b, n, t) == WalletBalance(s, caller, t) {
      assert WalletBalance(s1, caller, t) + BatchTotal(b, n - 1, t) == WalletBalance(s, caller, t);
    }
  }

  /** The balances after the first `n` entries of a batch, as
      `BalancesAfter` describes them. */
  lemma {:induction false} BatchBalances(s: Ledger, caller: Address, now: nat, b: VoucherBatch, n: nat)
    requires WellSized(b) && n <= |b.voucherHashes|
    requires MintPrefix(s, caller, now, b, n).Ok?
    ensures BalancesAfter(s, MintPrefix(s, caller, now, b, n).value, caller, b, n)
    decreases n
  {
    if n > 0 {
      BatchBalances(s, caller, now, b, n - 1);
      var s1 := MintPrefix(s, caller, now, b, n - 1).value;
      var s2 := MintPrefix(s, caller, now, b, n).value;
      MintEffects(s1, caller, now, b.voucherHashes[n - 1], b.tokens[n - 1], b.tokenValues[n - 1], b.expiryDays[n - 1]);
      BalancesStep(s, s1, s2, caller, b, n);
    }
  }

  /** The record entry `i` of a batch leaves when `caller` mints it at
      `now` on a ledger with the given expiry settings. */
  function EntryVoucher(b: VoucherBatch, i: nat, caller: Address, now: nat,
                        zeroExpiry: ZeroExpiry, defaultDays: nat): Voucher
    requires WellSized(b) && i < |b.voucherHashes|
  {
    Voucher(b.tokens[i], b.tokenValues[i], caller, ExpiryFor(zeroExpiry, defaultDays, now, b.expiryDays[i]), false)
  }

  /** How the voucher table `cur` relates to the table `before` the first
      `n` entries were minted: earlier vouchers are untouched, every
      entry's digest was new, the entries' digests are pairwise distinct,
      and each is recorded as an unredeemed voucher of the caller with its
      own token, value and expiry. */
  ghost predicate RecordsAfter(before: map<Digest, Voucher>, cur: map<Digest, Voucher>, b: VoucherBatch, n: nat,
                               caller: Address, now: nat, zeroExpiry: ZeroExpiry, defaultDays: nat)
    requires WellSized(b) && n <= |b.voucherHashes|
  {
    && (forall h :: h in before ==> h in cur && cur[h] == before[h])
    && (forall i :: 0 <= i < n ==> b.voucherHashes[i] !in before)
    && Distinct(b.voucherHashes[..n])
    && (forall i :: 0 <= i < n ==>
          b.voucherHashes[i] in cur
          && cur[b.voucherHashes[i]] == EntryVoucher(b, i, caller, now, zeroExpiry, defaultDays))
  }

  lemma RecordsStep(before: map<Digest, Voucher>, mid: map<Digest, Voucher>, cur: map<Digest, Voucher>,
                    b: VoucherBatch, n: nat, caller: Address, now: nat, zeroExpiry: ZeroExpiry, defaultDays: nat)
    requires WellSized(b) && 0 < n <= |b.voucherHashes|
    requires RecordsAfter(before, mid, b, n - 1, caller, now, zeroExpiry, defaultDays)
    requires b.voucherHashes[n - 1] !in mid
    requires cur == mid[b.voucherHashes[n - 1] := EntryVoucher(b, n - 1, caller, now, zeroExpiry, defaultDays)]
    ensures RecordsAfter(before, cur, b, n, caller, now, zeroExpiry, defaultDays)
  {
    var h := b.voucherHashes[n - 1];
    assert b.voucherHashes[..n] == b.voucherHashes[..n - 1] + [h];
    assert forall i :: 0 <= i < n - 1 ==> b.voucherHashes[..n - 1][i] == b.voucherHashes[i];
    AppendDistinct(b.voucherHashes[..n - 1], h);
  }

  /** The voucher table after the first `n` entries of a batch, as
      `RecordsAfter` describes it; the expiry settings are unchanged. */
  lemma {:induction false} BatchRecords(s: Ledger, caller: Address, now: nat, b: VoucherBatch, n: nat)
    requires WellSized(b) && n <= |b.voucherHashes|
    requires MintPrefix(s, caller, now, b, n).Ok?
    ensures var s' := MintPrefix(s, caller, now, b, n).value;
            && s'.zeroExpiry == s.zeroExpiry && s'.defaultExpiryDays == s.defaultExpiryDays
            && RecordsAfter(s.vouchers, s'.vouchers, b, n, caller, now, s.zeroExpiry, s.defaultExpiryDays)
    decreases n
  {
    if n > 0 {
      BatchRecords(s, caller, now, b, n - 1);
      var s1 := MintPrefix(s, caller, now, b, n - 1).value;
      var s2 := MintPrefix(s, caller, now, b, n).value;
      MintRecord(s1, caller, now, b.voucherHashes[n - 1], b.tokens[n - 1], b.tokenValues[n - 1], b.expiryDays[n - 1]);
      RecordsStep(s.vouchers, s1.vouchers, s2.vouchers, b, n, caller, now, s.zeroExpiry, s.defaultExpiryDays);
    } else {
      assert b.voucherHashes[..0] == [];
    }
  }

  /** Each entry of a successful batch is on record as its own voucher. */
  lemma BatchRecordsEntry(s: Ledger, caller: Address, now: nat, b: VoucherBatch, i: nat)
    requires WellSized(b) && i < |b.voucherHashes|
    requires MintBatch(s, caller, now, b).Ok?
    ensures b.voucherHashes[i] !in s.vouchers
    ensures var s' := MintBatch(s, caller, now, b).value;
            b.voucherHashes[i] in s'.vouchers
            && s'.vouchers[b.voucherHashes[i]]
               == Voucher(b.tokens[i], b.tokenValues[i], caller,
                          ExpiryFor(s.zeroExpiry, s.defaultExpiryDays, now, b.expiryDays[i]), false)
  {
    BatchRecords(s, caller, now, b, |b.voucherHashes|);
  }

  /** A successful batch lists every digest once. */
  lemma BatchDigestsDistinct(s: Ledger, caller: Address, now: nat, b: VoucherBatch)
    requires WellSized(b)
    requires MintPrefix(s, caller, now, b, |b.voucherHashes|).Ok?
    ensures Distinct(b.voucherHashes)
  {
    BatchRecords(s, caller, now, b, |b.voucherHashes|);
    assert b.voucherHashes[..|b.voucherHashes|] == b.voucherHashes;
  }

  /** A batch that lists the same digest twice never succeeds. */
  lemma RepeatedDigestFails(s: Ledger, caller: Address, now: nat, b: VoucherBatch, i: nat, j: nat)
    requires WellSized(b) && i < j < |b.voucherHashes|
    requires b.voucherHashes[i] == b.voucherHashes[j]
    ensures !MintPrefix(s, caller, now, b, |b.voucherHashes|).Ok?
    ensures !MintBatch(s, caller, now, b).Ok?
  {
    if MintPrefix(s, caller, now, b, |b.voucherHashes|).Ok? {
      BatchDigestsDistinct(s, caller, now, b);
    }
  }

  lemma {:induction false} BatchPreservesInv(s: Ledger, caller: Address, now: nat, b: VoucherBatch, n: nat)
    requires Inv(s)
    requires WellSized(b) && n <= |b.voucherHashes|
    requires MintPrefix(s, caller, now, b, n).Ok?
    ensures Inv(MintPrefix(s, caller, now, b, n).value)
    ensures Advances(s, MintPrefix(s, caller, now, b, n).value)
    decreases n
  {
    if n > 0 {
      BatchPreservesInv(s, caller, now, b, n - 1);
      var s1 := MintPrefix(s, caller, now, b, n - 1).value;
      var args := (b.voucherHashes[n - 1], b.tokens[n - 1], b.tokenValues[n - 1], b.expiryDays[n - 1]);
      MintPreservesInv(s1, caller, now, args.0, args.1, args.2, args.3);
      MintAdvances(s1, caller, now, args.0, args.1, args.2, args.3);
      AdvancesTransitive(s, s1, MintPrefix(s, caller, now, b, n).value);
    }
  }

  /* ---------- fees on a batch ---------- */

  /** Truncation can only lose: the fees on two amounts never exceed the
      fee on their sum. */
  lemma FeeSuperadditive(x: nat, y: nat, rate: nat)
    ensures Fee(x, rate) + Fee(y, rate) <= Fee(x + y, rate)
  {
    var fx, fy, fs := Fee(x, rate), Fee(y, rate), Fee(x + y, rate);
    assert (x + y) * rate == x * rate + y * rate;
    assert (fx + fy) * BasisPoints == fx * BasisPoints + fy * BasisPoints;
    assert (fx + fy) * BasisPoints < fs * BasisPoints + BasisPoints;
    assert (fx + fy) * BasisPoints < (fs + 1) * BasisPoints;
  }

  /** An amount whose fee is exact. */
  predicate ExactFee(amount: nat, rate: nat) {
    amount * rate % BasisPoints == 0
  }

  lemma ExactFeeIff(amount: nat, rate: nat)
    ensures ExactFee(amount, rate) <==> Fee(amount, rate) * BasisPoints == amount * rate
  {
  }

  /** Exact fees add up exactly. */
  lemma FeeExactAdditive(x: nat, y: nat, rate: nat)
    requires ExactFee(x, rate) && ExactFee(y, rate)
    ensures ExactFee(x + y, rate)
    ensures Fee(x + y, rate) == Fee(x, rate) + Fee(y, rate)
  {
    ExactFeeIff(x, rate);
    ExactFeeIff(y, rate);
    var fx, fy := Fee(x, rate), Fee(y, rate);
    assert (x + y) * rate == (fx + fy) * BasisPoints;
    assert (x + y) * rate / BasisPoints == fx + fy;
  }

  /** The treasury's take from a batch is at most the fee on each token's
      total; it is exactly that fee when every entry's fee is exact, which
      is how the suite computes the expected treasury balance. */
  lemma {:induction false} BatchFeesVersusTotal(b: VoucherBatch, n: nat, token: Address, rate: nat)
    requires WellSized(b) && n <= |b.voucherHashes|
    ensures BatchFees(b, n, token, rate) <= Fee(BatchTotal(b, n, token), rate)
    ensures (forall i :: 0 <= i < n ==> ExactFee(b.tokenValues[i], rate)) ==>
            ExactFee(BatchTotal(b, n, token), rate)
            && BatchFees(b, n, token, rate) == Fee(BatchTotal(b, n, token), rate)
    decreases n
  {
    if n > 0 {
      BatchFeesVersusTotal(b, n - 1, token, rate);
      var prev := BatchTotal(b, n - 1, token);
      if b.tokens[n - 1] == token {
        var x := b.tokenValues[n - 1];
        FeeSuperadditive(prev, x, rate);
        if forall i :: 0 <= i < n ==> ExactFee(b.tokenValues[i], rate) {
          FeeExactAdditive(prev, x, rate);
        }
      }
    }
  }
}
