/** The field-per-role factory: the owner, the pool deployer, the swap
    router and the position manager each have their own field and their own
    owner-only setter, which emits the previous and the new holder. */
module UniswapV3 {
  import opened Common
  import opened FactoryCore

  class UniswapV3Factory {
    /** This factory's own address, which every pool it creates records. */
    const factoryAddress: Address
    /** The deterministic (CREATE2) address a pool for a key is deployed at. */
    const deployAddress: PoolKey -> Address

    var owner: Address
    var poolDeployer: Address
    var swapRouter: Address
    var positionManager: Address
    var feeAmountTickSpacing: map<Uint24, Int24>
    var pools: map<PoolKey, Pool>
    var log: seq<Event>

    ghost predicate Valid()
      reads this
    {
      && (forall key :: deployAddress(key) != ZERO_ADDRESS)
      && ValidTiers(feeAmountTickSpacing)
      && ValidRegistry(factoryAddress, deployAddress, feeAmountTickSpacing, pools)
    }

    /** `feeAmountTickSpacing(fee)`: zero for a fee that is not enabled. */
    function FeeAmountTickSpacing(fee: Uint24): Int24
      reads this
    {
      if fee in feeAmountTickSpacing then feeAmountTickSpacing[fee] else 0
    }

    /** `getPool(tokenA, tokenB, fee)`. */
    function GetPool(tokenA: Address, tokenB: Address, fee: Uint24): Address
      reads this
    {
      LookupPool(pools, tokenA, tokenB, fee)
    }

    /** Deployment by `deployer`: it is owner and pool deployer, swap router
        and position manager are unset, the three standard fee tiers are
        enabled and no pool exists. */
    constructor (factoryAddress: Address, deployAddress: PoolKey -> Address, deployer: Address)
      requires forall key :: deployAddress(key) != ZERO_ADDRESS
      ensures Valid()
      ensures this.factoryAddress == factoryAddress && this.deployAddress == deployAddress
      ensures owner == deployer && poolDeployer == deployer
      ensures swapRouter == ZERO_ADDRESS && positionManager == ZERO_ADDRESS
      ensures feeAmountTickSpacing == DefaultTiers()
      ensures FeeAmountTickSpacing(250) == 0
      ensures pools == map[]
      ensures log == []
    {
      this.factoryAddress := factoryAddress;
      this.deployAddress := deployAddress;
      owner := deployer;
      poolDeployer := deployer;
      swapRouter := ZERO_ADDRESS;
      positionManager := ZERO_ADDRESS;
      feeAmountTickSpacing := DefaultTiers();
      pools := map[];
      log := [];
      new;
      DefaultTiersMatchTickSpacings();
    }

    /** `setOwner(newOwner)` sent by `caller`. */
    method SetOwner(caller: Address, newOwner: Address) returns (r: Outcome)
      requires Valid()
      modifies this`owner, this`log
      ensures Valid()
      ensures r == (if caller == old(owner) then Pass else Fail(NotOwner))
      ensures r.Pass? ==> owner == newOwner && log == old(log) + [OwnerChanged(old(owner), newOwner)]
      ensures r.Fail? ==> owner == old(owner) && log == old(log)
    {
      if caller != owner {
        return Fail(NotOwner);
      }
      log := log + [OwnerChanged(owner, newOwner)];
      owner := newOwner;
      r := Pass;
    }

    /** `setPoolDeployer(newPoolDeployer)` sent by `caller`. */
    method SetPoolDeployer(caller: Address, newPoolDeployer: Address) returns (r: Outcome)
      requires Valid()
      modifies this`poolDeployer, this`log
      ensures Valid()
      ensures r == (if caller == owner then Pass else Fail(NotOwner))
      ensures r.Pass? ==> poolDeployer == newPoolDeployer
                          && log == old(log) + [PoolDeployerChanged(old(poolDeployer), newPoolDeployer)]
      ensures r.Fail? ==> poolDeployer == old(poolDeployer) && log == old(log)
    {
      if caller != owner {
        return Fail(NotOwner);
      }
      log := log + [PoolDeployerChanged(poolDeployer, newPoolDeployer)];
      poolDeployer := newPoolDeployer;
      r := Pass;
    }

    /** `setSwapRouter(newSwapRouter)` sent by `caller`. */
    method SetSwapRouter(caller: Address, newSwapRouter: Address) returns (r: Outcome)
      requires Valid()
      modifies this`swapRouter, this`log
      ensures Valid()
      ensures r == (if caller == owner then Pass else Fail(NotOwner))
      ensures r.Pass? ==> swapRouter == newSwapRouter
                          && log == old(log) + [SwapRouterChanged(old(swapRouter), newSwapRouter)]
      ensures r.Fail? ==> swapRouter == old(swapRouter) && log == old(log)
    {
      if caller != owner {
        return Fail(NotOwner);
      }
      log := log + [SwapRouterChanged(swapRouter, newSwapRouter)];
      swapRouter := newSwapRouter;
      r := Pass;
    }

    /** `setPositionManager(newPositionManager)` sent by `caller`. */
    method SetPositionManager(caller: Address, newPositionManager: Address) returns (r: Outcome)
      requires Valid()
      modifies this`positionManager, this`log
      ensures Valid()
      ensures r == (if caller == owner then Pass else Fail(NotOwner))
      ensures r.Pass? ==> positionManager == newPositionManager
                          && log == old(log) + [PositionManagerChanged(old(positionManager), newPositionManager)]
      ensures r.Fail? ==> positionManager == old(positionManager) && log == old(log)
    {
      if caller != owner {
        return Fail(NotOwner);
      }
      log := log + [PositionManagerChanged(positionManager, newPositionManager)];
      positionManager := newPositionManager;
      r := Pass;
    }

    /** `createPool(tokenA, tokenB, fee)` sent by `caller`: the same guards
        and effect as the role-table factory, gated by the pool deployer. */
    method CreatePool(caller: Address, tokenA: Address, tokenB: Address, fee: Uint24) returns (r: Result<Address>)
      requires Valid()
      modifies this`pools, this`log
      ensures Valid()
      ensures
        match CreatePoolCheck(caller == poolDeployer, tokenA, tokenB, fee, feeAmountTickSpacing, old(pools))
        case Err(e) =>
          r == Err(e) && pools == old(pools) && log == old(log)
        case Ok(key) =>
          && r == Ok(deployAddress(key))
          && pools == old(pools)[key := NewPool(factoryAddress, deployAddress, key, feeAmountTickSpacing)]
          && log == old(log) + [PoolCreated(key.token0, key.token1, fee, feeAmountTickSpacing[fee], deployAddress(key))]
    {
      var check := CreatePoolCheck(caller == poolDeployer, tokenA, tokenB, fee, feeAmountTickSpacing, pools);
      if check.Err? {
        return Err(check.error);
      }
      var key := check.value;
      CreatePoolPreservesRegistry(factoryAddress, deployAddress, feeAmountTickSpacing, pools, tokenA, tokenB, fee);
      var pool := NewPool(factoryAddress, deployAddress, key, feeAmountTickSpacing);
      pools := pools[key := pool];
      log := log + [PoolCreated(key.token0, key.token1, fee, pool.tickSpacing, pool.address)];
      r := Ok(pool.address);
    }

    /** `enableFeeAmount(fee, tickSpacing)` sent by `caller`. */
    method EnableFeeAmount(caller: Address, fee: Uint24, tickSpacing: Int24) returns (r: Outcome)
      requires Valid()
      modifies this`feeAmountTickSpacing, this`log
      ensures Valid()
      ensures r == EnableFeeCheck(caller == owner, fee, tickSpacing, old(feeAmountTickSpacing))
      ensures r.Pass? ==> feeAmountTickSpacing == old(feeAmountTickSpacing)[fee := tickSpacing]
                          && log == old(log) + [FeeAmountEnabled(fee, tickSpacing)]
      ensures r.Fail? ==> feeAmountTickSpacing == old(feeAmountTickSpacing) && log == old(log)
    {
      r := EnableFeeCheck(caller == owner, fee, tickSpacing, feeAmountTickSpacing);
      if r.Pass? {
        EnableFeePreservesInvariants(factoryAddress, deployAddress, feeAmountTickSpacing, pools, fee, tickSpacing);
        feeAmountTickSpacing := feeAmountTickSpacing[fee := tickSpacing];
        log := log + [FeeAmountEnabled(fee, tickSpacing)];
      }
    }
  }

  /** What `getPool` reports for a factory in a consistent state: the same
      address in both argument orders, nonzero exactly when the pool exists. */
  lemma GetPoolOrderIndependent(f: UniswapV3Factory, tokenA: Address, tokenB: Address, fee: Uint24)
    requires f.Valid()
    ensures f.GetPool(tokenA, tokenB, fee) == f.GetPool(tokenB, tokenA, fee)
    ensures f.GetPool(tokenA, tokenB, fee) != ZERO_ADDRESS <==> KeyOf(tokenA, tokenB, fee) in f.pools
  {
    LookupPoolProperties(f.pools, tokenA, tokenB, fee, f.factoryAddress, f.deployAddress, f.feeAmountTickSpacing);
  }

  /** A successful createPool followed by the checks the tests make: the
      same call in either order now fails with PoolExists, getPool answers
      the new address in either order, and the pool records the ordered
      tokens, the fee, the fee's tick spacing and this factory. */
  method CreateAndCheckPool(f: UniswapV3Factory, caller: Address, tokenA: Address, tokenB: Address, fee: Uint24)
    returns (created: Result<Address>, again: Result<Address>, againReversed: Result<Address>,
             inOrder: Address, inReverse: Address)
    requires f.Valid() && caller == f.poolDeployer
    requires tokenA != tokenB && tokenA != ZERO_ADDRESS && tokenB != ZERO_ADDRESS
    requires fee in f.feeAmountTickSpacing && KeyOf(tokenA, tokenB, fee) !in f.pools
    modifies f
    ensures f.Valid()
    ensures created == Ok(inOrder) && inOrder == inReverse && inOrder != ZERO_ADDRESS
    ensures again == Err(PoolExists) && againReversed == Err(PoolExists)
    ensures KeyOf(tokenA, tokenB, fee) in f.pools
    ensures var pool := f.pools[KeyOf(tokenA, tokenB, fee)];
            && pool.address == inOrder
            && pool.factory == f.factoryAddress
            && {pool.token0, pool.token1} == {tokenA, tokenB} && pool.token0 < pool.token1
            && pool.fee == fee
            && pool.tickSpacing == f.FeeAmountTickSpacing(fee)
            && f.log == old(f.log) + [PoolCreated(pool.token0, pool.token1, fee, pool.tickSpacing, inOrder)]
    ensures f.pools == old(f.pools)[KeyOf(tokenA, tokenB, fee) := f.pools[KeyOf(tokenA, tokenB, fee)]]
    ensures f.owner == old(f.owner) && f.poolDeployer == old(f.poolDeployer)
    ensures f.swapRouter == old(f.swapRouter) && f.positionManager == old(f.positionManager)
    ensures f.feeAmountTickSpacing == old(f.feeAmountTickSpacing)
  {
    created := f.CreatePool(caller, tokenA, tokenB, fee);
    KeyOfOrderIndependent(tokenA, tokenB, fee);
    again := f.CreatePool(caller, tokenA, tokenB, fee);
    againReversed := f.CreatePool(caller, tokenB, tokenA, fee);
    inOrder := f.GetPool(tokenA, tokenB, fee);
    inReverse := f.GetPool(tokenB, tokenA, fee);
  }

  /** Handing ownership from `wallet` to `other`: afterwards every
      owner-gated setter called by `wallet` fails with NotOwner, `setOwner`
      included, and `other` may set the pool deployer, swap router and
      position manager, enable fees and call `setOwner` itself. */
  method OwnerHandover(f: UniswapV3Factory, wallet: Address, other: Address)
    returns (handover: Outcome, oldOwner: Outcome, oldDeployer: Outcome, oldRouter: Outcome,
             oldManager: Outcome, oldEnable: Outcome, newDeployer: Outcome, newRouter: Outcome,
             newManager: Outcome, newEnable: Outcome, newOwner: Outcome)
    requires f.Valid() && wallet == f.owner && other != wallet
    requires 100 !in f.feeAmountTickSpacing
    modifies f
    ensures f.Valid()
    ensures handover == Pass && f.owner == other
    ensures oldOwner == Fail(NotOwner) && oldDeployer == Fail(NotOwner) && oldRouter == Fail(NotOwner)
    ensures oldManager == Fail(NotOwner) && oldEnable == Fail(NotOwner)
    ensures newDeployer == Pass && newRouter == Pass && newManager == Pass && newEnable == Pass
    ensures newOwner == Pass
    ensures f.poolDeployer == wallet && f.swapRouter == other && f.positionManager == other
    ensures f.FeeAmountTickSpacing(100) == 5
    ensures f.feeAmountTickSpacing == old(f.feeAmountTickSpacing)[100 := 5]
    ensures f.pools == old(f.pools)
    ensures f.log == old(f.log) + [OwnerChanged(wallet, other), PoolDeployerChanged(old(f.poolDeployer), wallet),
                                   SwapRouterChanged(old(f.swapRouter), other),
                                   PositionManagerChanged(old(f.positionManager), other),
                                   FeeAmountEnabled(100, 5), OwnerChanged(other, other)]
  {
    handover := f.SetOwner(wallet, other);
    oldOwner := f.SetOwner(wallet, wallet);
    oldDeployer := f.SetPoolDeployer(wallet, wallet);
    oldRouter := f.SetSwapRouter(wallet, wallet);
    oldManager := f.SetPositionManager(wallet, wallet);
    oldEnable := f.EnableFeeAmount(wallet, 100, 5);
    newDeployer := f.SetPoolDeployer(other, wallet);
    newRouter := f.SetSwapRouter(other, other);
    newManager := f.SetPositionManager(other, other);
    newEnable := f.EnableFeeAmount(other, 100, 5);
    newOwner := f.SetOwner(other, other);
  }

  /** The first change of each role on a fresh factory deployed by `wallet`
      reports the initial holder: `wallet` for owner and pool deployer, the
      zero address for swap router and position manager; before that, a
      non-owner is rejected by every setter and leaves no event. */
  method FreshFactoryRoleEvents(factoryAddress: Address, deployAddress: PoolKey -> Address,
                                wallet: Address, other: Address)
    returns (events: seq<Event>, rejected: seq<Outcome>)
    requires forall key :: deployAddress(key) != ZERO_ADDRESS
    requires wallet != other
    ensures events == [PoolDeployerChanged(wallet, other), SwapRouterChanged(ZERO_ADDRESS, wallet),
                       PositionManagerChanged(ZERO_ADDRESS, wallet), OwnerChanged(wallet, other)]
    ensures rejected == [Fail(NotOwner), Fail(NotOwner), Fail(NotOwner), Fail(NotOwner)]
  {
    var f := new UniswapV3Factory(factoryAddress, deployAddress, wallet);
    var r0 := f.SetPoolDeployer(other, other);
    var r1 := f.SetSwapRouter(other, other);
    var r2 := f.SetPositionManager(other, other);
    var r3 := f.SetOwner(other, wallet);
    rejected := [r0, r1, r2, r3];
    var p0 := f.SetPoolDeployer(wallet, other);
    var p1 := f.SetSwapRouter(wallet, wallet);
    var p2 := f.SetPositionManager(wallet, wallet);
    var p3 := f.SetOwner(wallet, other);
    events := f.log;
  }

  /** The createPool guards the tests exercise on a fresh factory deployed
      by `wallet`: a caller other than the pool deployer gets NotPoolDeployer
      until `wallet` hands that role over; identical tokens, a zero token and
      the disabled fee 250 are rejected. */
  method FreshFactoryCreateGuards(factoryAddress: Address, deployAddress: PoolKey -> Address,
                                  wallet: Address, other: Address, token: Address)
    returns (notDeployer: Result<Address>, identical: Result<Address>, zeroToken: Result<Address>,
             feeDisabled: Result<Address>, handover: Outcome, byNewDeployer: Result<Address>)
    requires forall key :: deployAddress(key) != ZERO_ADDRESS
    requires wallet != other && token != ZERO_ADDRESS
    ensures notDeployer == Err(NotPoolDeployer)
    ensures identical == Err(IdenticalTokens) && zeroToken == Err(ZeroAddress)
    ensures feeDisabled == Err(FeeNotEnabled)
    ensures handover == Pass && byNewDeployer.Ok?
  {
    var f := new UniswapV3Factory(factoryAddress, deployAddress, wallet);
    var partner: Address := if token == 1 then 2 else 1;
    notDeployer := f.CreatePool(other, token, partner, 3000);
    identical := f.CreatePool(wallet, token, token, 500);
    zeroToken := f.CreatePool(wallet, ZERO_ADDRESS, token, 500);
    feeDisabled := f.CreatePool(wallet, token, partner, 250);
    handover := f.SetPoolDeployer(wallet, other);
    byNewDeployer := f.CreatePool(other, token, partner, 3000);
  }

  /** The enableFeeAmount guards the tests exercise on a fresh factory
      deployed by `wallet`: fee 1000000 and spacings 0 and 16834 are
      rejected, a second enabling of fee 100 is rejected and keeps spacing 5,
      and enabling fee 250 admits pool creation with it. */
  method FreshFactoryFeeGuards(factoryAddress: Address, deployAddress: PoolKey -> Address,
                               wallet: Address, tokenA: Address, tokenB: Address)
    returns (feeTooGreat: Outcome, spacingZero: Outcome, spacingTooLarge: Outcome,
             enabled: Outcome, reenabled: Outcome, spacing100: Int24, withNewFee: Result<Address>)
    requires forall key :: deployAddress(key) != ZERO_ADDRESS
    requires tokenA != tokenB && tokenA != ZERO_ADDRESS && tokenB != ZERO_ADDRESS
    ensures feeTooGreat == Fail(InvalidFee)
    ensures spacingZero == Fail(InvalidTickSpacing) && spacingTooLarge == Fail(InvalidTickSpacing)
    ensures enabled == Pass && reenabled == Fail(AlreadyEnabled) && spacing100 == 5
    ensures withNewFee.Ok?
  {
    var f := new UniswapV3Factory(factoryAddress, deployAddress, wallet);
    feeTooGreat := f.EnableFeeAmount(wallet, 1000000, 10);
    spacingZero := f.EnableFeeAmount(wallet, 500, 0);
    spacingTooLarge := f.EnableFeeAmount(wallet, 500, 16834);
    enabled := f.EnableFeeAmount(wallet, 100, 5);
    reenabled := f.EnableFeeAmount(wallet, 100, 10);
    spacing100 := f.FeeAmountTickSpacing(100);
    var _ := f.EnableFeeAmount(wallet, 250, 15);
    withNewFee := f.CreatePool(wallet, tokenA, tokenB, 250);
  }
}
