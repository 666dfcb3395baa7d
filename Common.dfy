/** Value types shared by both factory variants: addresses and the Solidity
    integer widths the factory uses, the error taxonomy of its guards, the
    events it emits, and the Result/Outcome wrappers its operations return. */
module Common {

  /** 2^160: an Ethereum address is a 160-bit unsigned integer. */
  const ADDRESS_LIMIT: nat := 0x1_0000_0000_0000_0000_0000_0000_0000_0000_0000_0000

  type Address = a: nat | a < ADDRESS_LIMIT

  /** The null address, also what an unset mapping entry reads as. */
  const ZERO_ADDRESS: Address := 0

  /** Solidity `uint24`, the type of a fee amount. */
  type Uint24 = x: nat | x < 0x100_0000

  /** Solidity `int24`, the type of a tick spacing. */
  type Int24 = x: int | -0x80_0000 <= x < 0x80_0000

  /** Why a factory call reverts. `NotOwner` stands for the revert reasons
      'OO' and 'onlyOwner', `NotPoolDeployer` for 'OPA' and 'onlyPoolDeployer';
      the others are the argument and state checks of createPool and
      enableFeeAmount. */
  datatype Error =
    | NotOwner
    | NotPoolDeployer
    | IdenticalTokens
    | ZeroAddress
    | FeeNotEnabled
    | PoolExists
    | InvalidFee
    | InvalidTickSpacing
    | AlreadyEnabled

  /** The events the factory emits, with their arguments in order. */
  datatype Event =
    | PoolCreated(token0: Address, token1: Address, fee: Uint24, tickSpacing: Int24, pool: Address)
    | FeeAmountEnabled(fee: Uint24, tickSpacing: Int24)
    | OwnerChanged(oldOwner: Address, newOwner: Address)
    | PoolDeployerChanged(oldPoolDeployer: Address, newPoolDeployer: Address)
    | SwapRouterChanged(oldSwapRouter: Address, newSwapRouter: Address)
    | PositionManagerChanged(oldPositionManager: Address, newPositionManager: Address)

  /** A call that returns a value or reverts. */
  datatype Result<T> = Ok(value: T) | Err(error: Error)

  /** A call that returns nothing or reverts. */
  datatype Outcome = Pass | Fail(error: Error)

  datatype Option<T> = None | Some(value: T)
}
