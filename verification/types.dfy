/** The values that the modules of the bridge exchange: tokens, transfers, batches and claims. */
module Types {

  datatype Option<+T> = None | Some(value: T)

  /** An amount of an ERC20 contract; amounts are sdk.Int values that are never negative here. */
  datatype ERC20Token = ERC20Token(contract: string, amount: nat)

  /** A transfer to Ethereum that waits in the pool or in a batch. */
  datatype Transfer = Transfer(id: nat, sender: string, dest: string, token: ERC20Token, fee: ERC20Token)

  datatype Batch = Batch(nonce: nat, timeout: nat, txs: seq<Transfer>, contract: string, block: nat)

  datatype BridgeValidator = BridgeValidator(power: nat, ethAddress: string)

  datatype Valset = Valset(nonce: nat, members: seq<BridgeValidator>, height: nat, rewardAmount: nat, rewardToken: string)

  /** What a validator says happened on Ethereum, without the orchestrator that says it. */
  datatype Claim =
    | SendToCosmos(eventNonce: nat, height: nat, contract: string, amount: nat, ethSender: string, receiver: string)
    | BatchSendToEth(eventNonce: nat, height: nat, batchNonce: nat, contract: string)
    | ERC20Deployed(eventNonce: nat, height: nat, denom: string, contract: string,
                    name: string, symbol: string, decimals: nat)
    | LogicCallExecuted(eventNonce: nat, height: nat, invalidationId: string, invalidationNonce: nat)
    | ValsetUpdated(eventNonce: nat, height: nat, valsetNonce: nat, members: seq<BridgeValidator>,
                    rewardAmount: nat, rewardToken: string)

  /** The claim hash, as an injective image of the fields that are hashed. The hash of an executed
      batch leaves the block height out; the four others hash every field. */
  function ClaimHash(c: Claim): Claim {
    match c
    case BatchSendToEth(eventNonce, _, batchNonce, contract) => BatchSendToEth(eventNonce, 0, batchNonce, contract)
    case _ => c
  }

  /** Equal hashes tell everything but the height of an executed batch. */
  lemma SameHashIff(c: Claim, d: Claim)
    ensures ClaimHash(c) == ClaimHash(d)
       <==> c == d || (c.BatchSendToEth? && d.BatchSendToEth? && c.eventNonce == d.eventNonce
                       && c.batchNonce == d.batchNonce && c.contract == d.contract)
  {
  }

  function Max(a: int, b: int): int {
    if a >= b then a else b
  }
}
