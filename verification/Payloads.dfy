/** What the relayer reads from the chains and what it sends to them, with the ABI encoding left away. */
module Payloads {
  import opened Wrappers
  import opened Bytes
  import opened Evm
  import opened SignatureCheck
  import opened Foreign

  /** The event in a log; `Other` cannot be parsed as the event asked for. */
  datatype LoggedEvent =
    | HomeDeposit(recipient: Address, value: uint256)
    | ForeignWithdraw(withdrawer: Bytes20, amount: uint256, homeGasPrice: uint256)
    | SignaturesCollected(authority: Address, messageHash: Digest, count: uint256)
    | Other

  datatype Log = Log(event: LoggedEvent, transactionHash: Option<Bytes32>)

  /** The call a transaction carries as its data. */
  datatype Payload =
    | DepositCall(order: Order)
    | SubmitSignatureCall(signature: seq<byte>, message: seq<byte>)
    | WithdrawCall(parts: Parts, message: seq<byte>)
}
