/** The fee-tier table and pool registry logic that both factory variants
    share: canonical token ordering, the guards of createPool and
    enableFeeAmount in the order they are checked, the record a created pool
    holds, and the invariants the two tables keep. */
module FactoryCore {
  import opened Common
  import TickMath

  /** Fees are in hundredths of a bip; a fee must stay below 100%. */
  const MAX_FEE: nat := 1000000

  /** Exclusive upper bound on an enabled tick spacing. */
  const MAX_TICK_SPACING: int := 16384

  /** A pool is identified by its canonically ordered token pair and its fee. */
  datatype PoolKey = PoolKey(token0: Address, token1: Address, fee: Uint24)

  /** What a deployed pool reports: its own address, the factory that made
      it, its tokens, fee and tick spacing. */
  datatype Pool = Pool(address: Address, factory: Address, token0: Address, token1: Address,
                       fee: Uint24, tickSpacing: Int24)

  /** Orders two token addresses so that the smaller comes first. */
  function SortTokens(tokenA: Address, tokenB: Address): (pair: (Address, Address))
    ensures pair.0 <= pair.1
    ensures tokenA != tokenB ==> pair.0 < pair.1
    ensures (pair.0 == tokenA && pair.1 == tokenB) || (pair.0 == tokenB && pair.1 == tokenA)
  {
    if tokenA < tokenB then (tokenA, tokenB) else (tokenB, tokenA)
  }

  /** The registry key for a token pair given in either order. */
  function KeyOf(tokenA: Address, tokenB: Address, fee: Uint24): (key: PoolKey)
    ensures key.fee == fee
    ensures {key.token0, key.token1} == {tokenA, tokenB}
    ensures key.token0 <= key.token1
  {
    var pair := SortTokens(tokenA, tokenB);
    PoolKey(pair.0, pair.1, fee)
  }

  /** The key does not depend on the order the tokens are passed in. */
  lemma KeyOfOrderIndependent(tokenA: Address, tokenB: Address, fee: Uint24)
    ensures KeyOf(tokenA, tokenB, fee) == KeyOf(tokenB, tokenA, fee)
  {
  }

  /** The fee tiers a freshly deployed factory has enabled. */
  function DefaultTiers(): map<Uint24, Int24>
  {
    map[500 := 10, 3000 := 60, 10000 := 200]
  }

  /** Every enabled fee is below MAX_FEE and maps to a spacing strictly
      between 0 and MAX_TICK_SPACING; in particular no enabled fee reads as 0. */
  ghost predicate ValidTiers(tiers: map<Uint24, Int24>)
  {
    forall fee :: fee in tiers ==> fee < MAX_FEE && 0 < tiers[fee] < MAX_TICK_SPACING
  }

  /** The record a pool created for a checked key holds: two distinct,
      nonzero tokens in ascending order, and under valid tiers a fee below
      MAX_FEE with a spacing strictly inside (0, MAX_TICK_SPACING). */
  function NewPool(factory: Address, deployAddress: PoolKey -> Address, key: PoolKey,
                   tiers: map<Uint24, Int24>): (pool: Pool)
    requires ZERO_ADDRESS < key.token0 < key.token1 && key.fee in tiers
    ensures ZERO_ADDRESS < pool.token0 < pool.token1
    ensures ValidTiers(tiers) ==> pool.fee < MAX_FEE && 0 < pool.tickSpacing < MAX_TICK_SPACING
    ensures pool.factory == factory && pool.address == deployAddress(key)
    ensures pool.token0 == key.token0 && pool.token1 == key.token1 && pool.fee == key.fee
    ensures pool.tickSpacing == tiers[key.fee]
  {
    Pool(deployAddress(key), factory, key.token0, key.token1, key.fee, tiers[key.fee])
  }

  /** Every registered pool has distinct, ordered, nonzero tokens, an
      enabled fee, the spacing of that fee, this factory as creator and the
      deterministic address of its key. */
  ghost predicate ValidRegistry(factory: Address, deployAddress: PoolKey -> Address,
                                tiers: map<Uint24, Int24>, pools: map<PoolKey, Pool>)
  {
    forall key :: key in pools ==>
      && key.token0 != ZERO_ADDRESS
      && key.token0 < key.token1
      && key.fee in tiers
      && pools[key] == NewPool(factory, deployAddress, key, tiers)
  }

  /** What `getPool(tokenA, tokenB, fee)` returns: the pool's address, or the
      zero address when none was created. */
  function LookupPool(pools: map<PoolKey, Pool>, tokenA: Address, tokenB: Address, fee: Uint24): Address
  {
    var key := KeyOf(tokenA, tokenB, fee);
    if key in pools then pools[key].address else ZERO_ADDRESS
  }

  /** `getPool` answers the same for both argument orders, and answers a
      nonzero address exactly for created pools when deployed addresses are
      nonzero. */
  lemma LookupPoolProperties(pools: map<PoolKey, Pool>, tokenA: Address, tokenB: Address, fee: Uint24,
                             factory: Address, deployAddress: PoolKey -> Address, tiers: map<Uint24, Int24>)
    requires ValidRegistry(factory, deployAddress, tiers, pools)
    requires forall key :: deployAddress(key) != ZERO_ADDRESS
    ensures LookupPool(pools, tokenA, tokenB, fee) == LookupPool(pools, tokenB, tokenA, fee)
    ensures LookupPool(pools, tokenA, tokenB, fee) != ZERO_ADDRESS <==> KeyOf(tokenA, tokenB, fee) in pools
    ensures KeyOf(tokenA, tokenB, fee) in pools ==>
              LookupPool(pools, tokenA, tokenB, fee) == deployAddress(KeyOf(tokenA, tokenB, fee))
  {
    KeyOfOrderIndependent(tokenA, tokenB, fee);
    var key := KeyOf(tokenA, tokenB, fee);
    if key in pools {
      assert pools[key] == NewPool(factory, deployAddress, key, tiers);
    }
  }

  /** The guards of createPool, in the order this model checks them:
      caller permission, identical tokens, a zero token (only the smaller
      token of the sorted pair needs testing), an enabled fee, no existing
      pool. On success it yields the key the pool is registered under. */
  function CreatePoolCheck(authorized: bool, tokenA: Address, tokenB: Address, fee: Uint24,
                           tiers: map<Uint24, Int24>, pools: map<PoolKey, Pool>): (r: Result<PoolKey>)
    ensures r == Err(NotPoolDeployer) <==> !authorized
    ensures r == Err(IdenticalTokens) <==> authorized && tokenA == tokenB
    ensures r == Err(ZeroAddress) <==>
              authorized && tokenA != tokenB && (tokenA == ZERO_ADDRESS || tokenB == ZERO_ADDRESS)
    ensures r == Err(FeeNotEnabled) <==>
              authorized && tokenA != tokenB && tokenA != ZERO_ADDRESS && tokenB != ZERO_ADDRESS
              && fee !in tiers
    ensures r == Err(PoolExists) <==>
              authorized && tokenA != tokenB && tokenA != ZERO_ADDRESS && tokenB != ZERO_ADDRESS
              && fee in tiers && KeyOf(tokenA, tokenB, fee) in pools
    ensures r.Ok? <==>
              authorized && tokenA != tokenB && tokenA != ZERO_ADDRESS && tokenB != ZERO_ADDRESS
              && fee in tiers && KeyOf(tokenA, tokenB, fee) !in pools
    ensures r.Ok? ==> r.value == KeyOf(tokenA, tokenB, fee) && ZERO_ADDRESS < r.value.token0 < r.value.token1
  {
    if !authorized then Err(NotPoolDeployer)
    else if tokenA == tokenB then Err(IdenticalTokens)
    else
      var key := KeyOf(tokenA, tokenB, fee);
      if key.token0 == ZERO_ADDRESS then Err(ZeroAddress)
      else if fee !in tiers then Err(FeeNotEnabled)
      else if key in pools then Err(PoolExists)
      else Ok(key)
  }

  /** The guards of enableFeeAmount, in the order this model checks them: caller
      is owner, fee below MAX_FEE, spacing strictly inside
      (0, MAX_TICK_SPACING), fee not enabled before. */
  function EnableFeeCheck(authorized: bool, fee: Uint24, tickSpacing: Int24,
                          tiers: map<Uint24, Int24>): (r: Outcome)
    ensures r == Fail(NotOwner) <==> !authorized
    ensures r == Fail(InvalidFee) <==> authorized && fee >= MAX_FEE
    ensures r == Fail(InvalidTickSpacing) <==>
              authorized && fee < MAX_FEE && (tickSpacing <= 0 || tickSpacing >= MAX_TICK_SPACING)
    ensures r == Fail(AlreadyEnabled) <==>
              authorized && fee < MAX_FEE && 0 < tickSpacing < MAX_TICK_SPACING && fee in tiers
    ensures r.Pass? <==>
              authorized && fee < MAX_FEE && 0 < tickSpacing < MAX_TICK_SPACING && fee !in tiers
  {
    if !authorized then Fail(NotOwner)
    else if fee >= MAX_FEE then Fail(InvalidFee)
    else if tickSpacing <= 0 || tickSpacing >= MAX_TICK_SPACING then Fail(InvalidTickSpacing)
    else if fee in tiers then Fail(AlreadyEnabled)
    else Pass
  }

  /** A fresh factory's tiers satisfy the tier invariant; enabling a tier
      that passed its guards keeps it, and keeps every registered pool
      consistent because existing tiers are never overwritten. */
  lemma EnableFeePreservesInvariants(factory: Address, deployAddress: PoolKey -> Address,
                                     tiers: map<Uint24, Int24>, pools: map<PoolKey, Pool>,
                                     fee: Uint24, tickSpacing: Int24)
    requires ValidTiers(tiers) && ValidRegistry(factory, deployAddress, tiers, pools)
    requires EnableFeeCheck(true, fee, tickSpacing, tiers).Pass?
    ensures ValidTiers(tiers[fee := tickSpacing])
    ensures ValidRegistry(factory, deployAddress, tiers[fee := tickSpacing], pools)
    ensures forall f :: f in tiers ==> f in tiers[fee := tickSpacing] && tiers[fee := tickSpacing][f] == tiers[f]
  {
    var tiers' := tiers[fee := tickSpacing];
    forall key | key in pools
      ensures pools[key] == NewPool(factory, deployAddress, key, tiers')
    {
      assert key.fee in tiers && key.fee != fee;
    }
  }

  /** Registering the pool for a key that passed createPool's guards keeps
      the registry consistent. */
  lemma CreatePoolPreservesRegistry(factory: Address, deployAddress: PoolKey -> Address,
                                    tiers: map<Uint24, Int24>, pools: map<PoolKey, Pool>,
                                    tokenA: Address, tokenB: Address, fee: Uint24)
    requires ValidRegistry(factory, deployAddress, tiers, pools)
    requires CreatePoolCheck(true, tokenA, tokenB, fee, tiers, pools).Ok?
    ensures var key := KeyOf(tokenA, tokenB, fee);
            ValidRegistry(factory, deployAddress, tiers, pools[key := NewPool(factory, deployAddress, key, tiers)])
  {
  }

  /** The fresh factory's tiers are exactly the table the tests compare
      against: LOW, MEDIUM and HIGH with their tick spacings, and nothing
      else; they satisfy the tier invariant. */
  lemma DefaultTiersMatchTickSpacings()
    ensures DefaultTiers().Keys == {TickMath.FeeAmount.LOW.Fee(), TickMath.FeeAmount.MEDIUM.Fee(), TickMath.FeeAmount.HIGH.Fee()}
    ensures forall amount: TickMath.FeeAmount ::
              DefaultTiers()[amount.Fee()] == TickMath.TickSpacing(amount)
    ensures ValidTiers(DefaultTiers())
  {
    forall amount: TickMath.FeeAmount
      ensures DefaultTiers()[amount.Fee()] == TickMath.TickSpacing(amount)
    {
      match amount
      case LOW =>
      case MEDIUM =>
      case HIGH =>
    }
  }
}
