/** Values shared by the ledger and the web client: accounts, voucher
    digests, transaction receipts and the thrown errors the client sees. */
module Chain {

  datatype Option<+T> = None | Some(value: T)

  datatype Result<+T, +E> = Ok(value: T) | Err(error: E)

  /** An account or token contract address, as the hex text ethers uses. */
  type Address = string

  /** The zero address, which the ledger reports for the token and issuer
      of a voucher that was never minted. */
  const ZeroAddress: Address := "0x0000000000000000000000000000000000000000"

  /** A 32-byte voucher digest. `keccak256(toUtf8Bytes(code))` is modelled
      as a free constructor applied to the code: an idealised hash that is
      injective by construction. Nothing in the model reads the code back
      out of a digest. */
  datatype Digest = Keccak256Utf8(code: string)

  function VoucherHash(code: string): Digest
  {
    Keccak256Utf8(code)
  }

  /** The receipt `tx.wait()` resolves to once a transaction is mined. */
  datatype Receipt = Receipt(transactionHash: string, blockNumber: nat)

  /** Whatever a rejected promise carries: an Error whose `message` may be
      missing. */
  datatype Thrown = Thrown(message: Option<string>)

  /** The two awaited steps of a contract write: the send is either
      rejected outright, or it yields a pending transaction whose
      `wait()` either confirms with a receipt or rejects. */
  datatype TxOutcome =
    | SendRejected(sendError: Thrown)
    | Sent(confirmation: Result<Receipt, Thrown>)
}
