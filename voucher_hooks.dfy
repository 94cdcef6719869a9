/** The two React hooks of the client: `useVoucherStatus`, which looks a
    code up and keeps the last record it found, and `useVoucherRedemption`,
    which asks the contract to redeem a code to the signed-in user's wallet
    address. Each keeps its React state as fields that the handler updates
    step by step; the remote call is a parameter holding what it
    resolved or rejected with, and the clock reading and `formatEther`
    are parameters too. */
module VoucherHooks {
  import opened Chain
  import opened Text
  import L = LedgerSpec
  import C = ContractClient
  import E = VoucherChainErrors

  const EnterCodeMessage: string := "Please enter a voucher code"
  const ConnectWalletMessage: string := "Please connect your wallet first"

  /** `Number.MAX_SAFE_INTEGER`: `BigNumber.toNumber()` throws above it. */
  const MaxSafeInteger: nat := 0x1F_FFFF_FFFF_FFFF

  /** The `voucherData` record the status hook builds and keeps. */
  datatype VoucherData = VoucherData(
    voucherExists: bool, isRedeemed: bool, token: Address, tokenValue: string,
    issuer: Address, expiryTimestamp: nat, isExpired: bool, rawTokenValue: nat)

  /** The record built from the contract's status tuple at `nowMs`, or
      the numeric fault `toNumber()` throws for an expiry past the safe
      integer range. */
  function VoucherDataOf(st: L.StatusTuple, nowMs: nat, formatEther: nat -> string,
                         fault: Thrown): (r: Result<VoucherData, Thrown>)
    ensures r.Ok? <==> st.expiryTimestamp <= MaxSafeInteger
    ensures r.Err? ==> r.error == fault
    ensures r.Ok? ==>
              && r.value.voucherExists == st.voucherExists && r.value.isRedeemed == st.isRedeemed
              && r.value.token == st.token && r.value.issuer == st.issuer
              && r.value.tokenValue == formatEther(st.tokenValue)
              && r.value.rawTokenValue == st.tokenValue
              && r.value.expiryTimestamp == st.expiryTimestamp
              && (r.value.isExpired <==> C.IsExpiredAt(st.expiryTimestamp, nowMs))
              && r.value.isExpired == C.ViewOf(st, nowMs).isExpired
  {
    var tokenValue := formatEther(st.tokenValue);
    if st.expiryTimestamp > MaxSafeInteger then Err(fault)
    else
      var expiry := st.expiryTimestamp;
      Ok(VoucherData(st.voucherExists, st.isRedeemed, st.token, tokenValue, st.issuer,
                     expiry, st.expiryTimestamp > 0 && nowMs > expiry * 1000, st.tokenValue))
  }

  /** What the `try` block of `checkVoucherStatus` ends with: the record,
      or what was thrown on the way (by the call or by `toNumber()`). */
  function StatusOutcome(reply: Result<L.StatusTuple, Thrown>, nowMs: nat,
                         formatEther: nat -> string, fault: Thrown): (r: Result<VoucherData, Thrown>)
    ensures reply.Err? ==> r == Err(reply.error)
    ensures reply.Ok? ==> r == VoucherDataOf(reply.value, nowMs, formatEther, fault)
  {
    match reply
    case Err(t) => Err(t)
    case Ok(st) => VoucherDataOf(st, nowMs, formatEther, fault)
  }

  /** A record the hook shows as existing, unspent and unexpired belongs
      to a voucher the ledger lets anyone redeem in the current second. */
  lemma HookShownRedeemableIsRedeemable(s: L.Ledger, code: string, recipient: Address, nowMs: nat,
                                        formatEther: nat -> string, fault: Thrown)
    requires L.Inv(s)
    requires var r := VoucherDataOf(L.StatusOf(s, code), nowMs, formatEther, fault);
             r.Ok? && r.value.voucherExists && !r.value.isRedeemed && !r.value.isExpired
    ensures L.Redeem(s, code, recipient, nowMs / 1000).Ok?
  {
    C.ShownRedeemableIsRedeemable(s, code, recipient, nowMs);
  }

  /** The hook and the ledger read expiry the same way up to the second
      the ledger's clock lags behind: a voucher whose expiry has passed on
      the ledger shows as expired, and one shown as expired is past its
      expiry on the ledger one second later. */
  lemma HookExpiryAgreement(st: L.StatusTuple, nowMs: nat, formatEther: nat -> string, fault: Thrown)
    requires st.expiryTimestamp <= MaxSafeInteger
    ensures var v := VoucherDataOf(st, nowMs, formatEther, fault).value;
            && (L.PastExpiry(st.expiryTimestamp, nowMs / 1000) ==> v.isExpired)
            && (v.isExpired ==> L.PastExpiry(st.expiryTimestamp, nowMs / 1000 + 1))
  {
    C.ExpiryAgreement(st.expiryTimestamp, nowMs);
  }

  /** The state of the status hook at the moment its call went out. */
  datatype StatusQuery = StatusQuery(voucherCode: string, isLoading: bool, error: Option<string>)

  /** `useVoucherStatus()`. */
  class VoucherStatusHook {
    var voucherInfo: Option<VoucherData>
    var isLoading: bool
    var error: Option<string>
    /** Every `getVoucherStatus` call made, with the state it was made in. */
    ghost var queries: seq<StatusQuery>

    constructor ()
      ensures voucherInfo == None && !isLoading && error == None && queries == []
    {
      voucherInfo := None;
      isLoading := false;
      error := None;
      queries := [];
    }

    /** `checkVoucherStatus(voucherCode)`. A blank code is refused without
        a call. Otherwise the call is made with the loading flag up and
        the error cleared; a record found replaces the kept one, while a
        failure keeps the previous record and shows the handler's
        message; the flag is down again at the end. */
    method CheckVoucherStatus(voucherCode: string, reply: Result<L.StatusTuple, Thrown>, nowMs: nat,
                              formatEther: nat -> string, fault: Thrown)
        returns (r: Option<VoucherData>)
      modifies this
      ensures AllJsSpace(voucherCode) ==>
                && r == None && error == Some(EnterCodeMessage)
                && voucherInfo == old(voucherInfo) && isLoading == old(isLoading)
                && queries == old(queries)
      ensures !AllJsSpace(voucherCode) ==>
                && queries == old(queries) + [StatusQuery(voucherCode, true, None)]
                && !isLoading
                && match StatusOutcome(reply, nowMs, formatEther, fault)
                   case Ok(v) => r == Some(v) && voucherInfo == Some(v) && error == None
                   case Err(t) =>
                     && r == None && voucherInfo == old(voucherInfo)
                     && error == Some(E.HandleVoucherChainError(t))
    {
      TrimEmptyIff(voucherCode);
      if Trim(voucherCode) == "" {
        error := Some(EnterCodeMessage);
        return None;
      }
      isLoading := true;
      error := None;
      queries := queries + [StatusQuery(voucherCode, isLoading, error)];
      match reply {
        case Err(t) =>
          error := Some(E.HandleVoucherChainError(t));
          r := None;
        case Ok(status) =>
          var data := VoucherDataOf(status, nowMs, formatEther, fault);
          if data.Err? {
            error := Some(E.HandleVoucherChainError(data.error));
            r := None;
          } else {
            voucherInfo := Some(data.value);
            r := Some(data.value);
          }
      }
      isLoading := false;
    }
  }

  /** `user?.wallet?.address` is truthy: present and not empty. */
  predicate HasWallet(wallet: Option<Address>) {
    wallet.Some? && wallet.value != ""
  }

  /** A `redeemVoucher` transaction the hook sent, with the state it was
      sent in. */
  datatype RedeemRequest = RedeemRequest(voucherCode: string, recipient: Address, isRedeeming: bool,
                                         error: Option<string>)

  /** What thrown error, if any, the awaited send and `wait()` ended with. */
  function RedeemThrown(outcome: TxOutcome): (t: Option<Thrown>)
    ensures t.None? <==> outcome.Sent? && outcome.confirmation.Ok?
    ensures outcome.SendRejected? ==> t == Some(outcome.sendError)
  {
    match outcome
    case SendRejected(e) => Some(e)
    case Sent(Err(e)) => Some(e)
    case Sent(Ok(_)) => None
  }

  /** `useVoucherRedemption()`, paying out to the signed-in user's wallet
      address. `RedeemVoucher` takes the settled send as a parameter, as it
      behaves once the contract handle can sign; `RedeemUnsigned` is the
      hook as written, whose handle cannot. */
  class RedemptionHook {
    var isRedeeming: bool
    var error: Option<string>
    /** Every redemption transaction sent, in order. */
    ghost var requests: seq<RedeemRequest>

    constructor ()
      ensures !isRedeeming && error == None && requests == []
    {
      isRedeeming := false;
      error := None;
      requests := [];
    }

    /** `redeemVoucher(voucherCode)`. The wallet is checked before the
        code, so without a wallet the wallet message wins even for a blank
        code. A call goes out with the code as typed and the user's own
        address as recipient; the receipt is returned on success, the
        handler's message shown on failure, and the flag is down again at
        the end. */
    method RedeemVoucher(voucherCode: string, wallet: Option<Address>, outcome: TxOutcome)
        returns (r: Option<Receipt>)
      modifies this
      ensures !HasWallet(wallet) ==>
                && r == None && error == Some(ConnectWalletMessage)
                && isRedeeming == old(isRedeeming) && requests == old(requests)
      ensures HasWallet(wallet) && AllJsSpace(voucherCode) ==>
                && r == None && error == Some(EnterCodeMessage)
                && isRedeeming == old(isRedeeming) && requests == old(requests)
      ensures HasWallet(wallet) && !AllJsSpace(voucherCode) ==>
                && requests == old(requests) + [RedeemRequest(voucherCode, wallet.value, true, None)]
                && !isRedeeming
                && match RedeemThrown(outcome)
                   case None => r == Some(outcome.confirmation.value) && error == None
                   case Some(t) => r == None && error == Some(E.HandleVoucherChainError(t))
    {
      if wallet.None? || wallet.value == "" {
        error := Some(ConnectWalletMessage);
        return None;
      }
      TrimEmptyIff(voucherCode);
      if Trim(voucherCode) == "" {
        error := Some(EnterCodeMessage);
        return None;
      }
      isRedeeming := true;
      error := None;
      requests := requests + [RedeemRequest(voucherCode, wallet.value, isRedeeming, error)];
      match outcome {
        case SendRejected(e) =>
          error := Some(E.HandleVoucherChainError(e));
          r := None;
        case Sent(Err(e)) =>
          error := Some(E.HandleVoucherChainError(e));
          r := None;
        case Sent(Ok(receipt)) =>
          r := Some(receipt);
      }
      isRedeeming := false;
    }

    /** `redeemVoucher` as written: `getVoucherChainContract()` is called
        without a signer, so the contract is bound to a bare JSON-RPC
        provider and ethers rejects the send (with `noSigner`) before
        anything reaches the chain. Whatever the inputs, no receipt ever
        comes back, and a request that passes both guards always ends in
        the handler's message for that rejection. */
    method RedeemUnsigned(voucherCode: string, wallet: Option<Address>, noSigner: Thrown)
        returns (r: Option<Receipt>)
      modifies this
      ensures r == None
      ensures !HasWallet(wallet) ==>
                && error == Some(ConnectWalletMessage)
                && isRedeeming == old(isRedeeming) && requests == old(requests)
      ensures HasWallet(wallet) && AllJsSpace(voucherCode) ==>
                && error == Some(EnterCodeMessage)
                && isRedeeming == old(isRedeeming) && requests == old(requests)
      ensures HasWallet(wallet) && !AllJsSpace(voucherCode) ==>
                && requests == old(requests) + [RedeemRequest(voucherCode, wallet.value, true, None)]
                && !isRedeeming && error == Some(E.HandleVoucherChainError(noSigner))
    {
      r := RedeemVoucher(voucherCode, wallet, SendRejected(noSigner));
    }
  }
}
