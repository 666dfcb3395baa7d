/** The role-table factory: one table maps each role to the address that
    holds it, the owner reassigns any role with a single call, and the
    pool-admin role gates pool creation. It also keeps the list of identity
    token ids allowed to interact with its pools. */
module Mauve {
  import opened Common
  import opened FactoryCore

  /** The roles of the table, each held by exactly one address. */
  datatype Role = Owner | PoolAdmin | SwapRouter | PositionManager

  class MauveFactory {
    /** This factory's own address, which every pool it creates records. */
    const factoryAddress: Address
    /** The deterministic (CREATE2) address a pool for a key is deployed at. */
    const deployAddress: PoolKey -> Address

    var roles: map<Role, Address>
    var feeAmountTickSpacing: map<Uint24, Int24>
    var pools: map<PoolKey, Pool>
    var tokenIdsAllowedToInteract: seq<nat>
    var log: seq<Event>

    ghost predicate Valid()
      reads this
    {
      && (forall key :: deployAddress(key) != ZERO_ADDRESS)
      && ValidTiers(feeAmountTickSpacing)
      && ValidRegistry(factoryAddress, deployAddress, feeAmountTickSpacing, pools)
    }

    /** `roles(role)`: the holder of a role; an unset role reads as zero. */
    function Roles(role: Role): Address
      reads this
    {
      if role in roles then roles[role] else ZERO_ADDRESS
    }

    /** `feeAmountTickSpacing(fee)`: zero for a fee that is not enabled. */
    function FeeAmountTickSpacing(fee: Uint24): Int24
      reads this
    {
      if fee in feeAmountTickSpacing then feeAmountTickSpacing[fee] else 0
    }

    /** `getPool(tokenA, tokenB, fee)`. */
    function GetPool(tokenA: Address, tokenB: Address, fee: Uint24): Address
      reads this
    {
      LookupPool(pools, tokenA, tokenB, fee)
    }

    /** `getMauveTokenIdsAllowedToInteract()`. */
    function GetMauveTokenIdsAllowedToInteract(): seq<nat>
      reads this
    {
      tokenIdsAllowedToInteract
    }

    /** Deployment by `deployer`: it holds the owner and pool-admin roles,
        the three standard fee tiers are enabled, no pool exists and no
        token id is allowed. */
    constructor (factoryAddress: Address, deployAddress: PoolKey -> Address, deployer: Address)
      requires forall key :: deployAddress(key) != ZERO_ADDRESS
      ensures Valid()
      ensures this.factoryAddress == factoryAddress && this.deployAddress == deployAddress
      ensures Roles(Owner) == deployer && Roles(PoolAdmin) == deployer
      ensures Roles(SwapRouter) == ZERO_ADDRESS && Roles(PositionManager) == ZERO_ADDRESS
      ensures feeAmountTickSpacing == DefaultTiers()
      ensures FeeAmountTickSpacing(250) == 0
      ensures pools == map[]
      ensures GetMauveTokenIdsAllowedToInteract() == []
      ensures log == []
    {
      this.factoryAddress := factoryAddress;
      this.deployAddress := deployAddress;
      roles := map[Owner := deployer, PoolAdmin := deployer];
      feeAmountTickSpacing := DefaultTiers();
      pools := map[];
      tokenIdsAllowedToInteract := [];
      log := [];
      new;
      DefaultTiersMatchTickSpacings();
    }

    /** `setRole(holder, role)` sent by `caller`: only the owner may call it;
        it overwrites that one role and nothing else. */
    method SetRole(caller: Address, holder: Address, role: Role) returns (r: Outcome)
      requires Valid()
      modifies this
      ensures Valid()
      ensures r == (if caller == old(Roles(Owner)) then Pass else Fail(NotOwner))
      ensures roles == (if r.Pass? then old(roles)[role := holder] else old(roles))
      ensures feeAmountTickSpacing == old(feeAmountTickSpacing) && pools == old(pools)
      ensures tokenIdsAllowedToInteract == old(tokenIdsAllowedToInteract) && log == old(log)
    {
      if caller != Roles(Owner) {
        return Fail(NotOwner);
      }
      roles := roles[role := holder];
      r := Pass;
    }

    /** `createPool(tokenA, tokenB, fee)` sent by `caller`: on success the
        pool for the ordered pair is registered with the fee's spacing and
        announced; on failure nothing changes. */
    method CreatePool(caller: Address, tokenA: Address, tokenB: Address, fee: Uint24) returns (r: Result<Address>)
      requires Valid()
      modifies this
      ensures Valid()
      ensures roles == old(roles) && feeAmountTickSpacing == old(feeAmountTickSpacing)
      ensures tokenIdsAllowedToInteract == old(tokenIdsAllowedToInteract)
      ensures
        match CreatePoolCheck(caller == Roles(PoolAdmin), tokenA, tokenB, fee,
                              old(feeAmountTickSpacing), old(pools))
        case Err(e) =>
          r == Err(e) && pools == old(pools) && log == old(log)
        case Ok(key) =>
          && r == Ok(deployAddress(key))
          && pools == old(pools)[key := NewPool(factoryAddress, deployAddress, key, feeAmountTickSpacing)]
          && log == old(log) + [PoolCreated(key.token0, key.token1, fee, feeAmountTickSpacing[fee], deployAddress(key))]
    {
      var check := CreatePoolCheck(caller == Roles(PoolAdmin), tokenA, tokenB, fee, feeAmountTickSpacing, pools);
      if check.Err? {
        return Err(check.error);
      }
      var key := check.value;
      CreatePoolPreservesRegistry(factoryAddress, deployAddress, feeAmountTickSpacing, pools, tokenA, tokenB, fee);
      var pool := NewPool(factoryAddress, deployAddress, key, feeAmountTickSpacing);
      pools := pools[key := pool];
      log := log + [PoolCreated(key.token0, key.token1, fee, pool.tickSpacing, pool.address)];
      r := Ok(pool.address);
    }

    /** `enableFeeAmount(fee, tickSpacing)` sent by `caller`: on success the
        fee is enabled with that spacing for good; on failure nothing
        changes, in particular an enabled fee keeps its spacing. */
    method EnableFeeAmount(caller: Address, fee: Uint24, tickSpacing: Int24) returns (r: Outcome)
      requires Valid()
      modifies this
      ensures Valid()
      ensures r == EnableFeeCheck(caller == Roles(Owner), fee, tickSpacing, old(feeAmountTickSpacing))
      ensures r.Pass? ==> feeAmountTickSpacing == old(feeAmountTickSpacing)[fee := tickSpacing]
                          && log == old(log) + [FeeAmountEnabled(fee, tickSpacing)]
      ensures r.Fail? ==> feeAmountTickSpacing == old(feeAmountTickSpacing) && log == old(log)
      ensures roles == old(roles) && pools == old(pools)
      ensures tokenIdsAllowedToInteract == old(tokenIdsAllowedToInteract)
    {
      r := EnableFeeCheck(caller == Roles(Owner), fee, tickSpacing, feeAmountTickSpacing);
      if r.Pass? {
        EnableFeePreservesInvariants(factoryAddress, deployAddress, feeAmountTickSpacing, pools, fee, tickSpacing);
        feeAmountTickSpacing := feeAmountTickSpacing[fee := tickSpacing];
        log := log + [FeeAmountEnabled(fee, tickSpacing)];
      }
    }

    /** `setMauveTokenIdsAllowedToInteract(ids)` sent by `caller`: only the
        owner may replace the list. */
    method SetMauveTokenIdsAllowedToInteract(caller: Address, ids: seq<nat>) returns (r: Outcome)
      requires Valid()
      modifies this
      ensures Valid()
      ensures r == (if caller == Roles(Owner) then Pass else Fail(NotOwner))
      ensures tokenIdsAllowedToInteract == (if r.Pass? then ids else old(tokenIdsAllowedToInteract))
      ensures roles == old(roles) && feeAmountTickSpacing == old(feeAmountTickSpacing)
      ensures pools == old(pools) && log == old(log)
    {
      if caller != Roles(Owner) {
        return Fail(NotOwner);
      }
      tokenIdsAllowedToInteract := ids;
      r := Pass;
    }
  }

  /** What `getPool` reports for a factory in a consistent state: the same
      address in both argument orders, nonzero exactly when the pool exists. */
  lemma GetPoolOrderIndependent(f: MauveFactory, tokenA: Address, tokenB: Address, fee: Uint24)
    requires f.Valid()
    ensures f.GetPool(tokenA, tokenB, fee) == f.GetPool(tokenB, tokenA, fee)
    ensures f.GetPool(tokenA, tokenB, fee) != ZERO_ADDRESS <==> KeyOf(tokenA, tokenB, fee) in f.pools
  {
    LookupPoolProperties(f.pools, tokenA, tokenB, fee, f.factoryAddress, f.deployAddress, f.feeAmountTickSpacing);
  }

  /** A successful createPool followed by the checks the tests make: the
      same call in either order now fails with PoolExists, getPool answers
      the new address in either order, and the pool records the ordered
      tokens, the fee, the fee's tick spacing and this factory. */
  method CreateAndCheckPool(f: MauveFactory, caller: Address, tokenA: Address, tokenB: Address, fee: Uint24)
    returns (created: Result<Address>, again: Result<Address>, againReversed: Result<Address>,
             inOrder: Address, inReverse: Address)
    requires f.Valid() && caller == f.Roles(PoolAdmin)
    requires tokenA != tokenB && tokenA != ZERO_ADDRESS && tokenB != ZERO_ADDRESS
    requires fee in f.feeAmountTickSpacing && KeyOf(tokenA, tokenB, fee) !in f.pools
    modifies f
    ensures f.Valid()
    ensures created == Ok(inOrder) && inOrder == inReverse && inOrder != ZERO_ADDRESS
    ensures again == Err(PoolExists) && againReversed == Err(PoolExists)
    ensures KeyOf(tokenA, tokenB, fee) in f.pools
    ensures var pool := f.pools[KeyOf(tokenA, tokenB, fee)];
            && pool.address == inOrder
            && pool.factory == f.factoryAddress
            && {pool.token0, pool.token1} == {tokenA, tokenB} && pool.token0 < pool.token1
            && pool.fee == fee
            && pool.tickSpacing == f.FeeAmountTickSpacing(fee)
            && f.log == old(f.log) + [PoolCreated(pool.token0, pool.token1, fee, pool.tickSpacing, inOrder)]
    ensures f.pools == old(f.pools)[KeyOf(tokenA, tokenB, fee) := f.pools[KeyOf(tokenA, tokenB, fee)]]
    ensures f.roles == old(f.roles) && f.feeAmountTickSpacing == old(f.feeAmountTickSpacing)
    ensures f.tokenIdsAllowedToInteract == old(f.tokenIdsAllowedToInteract)
  {
    created := f.CreatePool(caller, tokenA, tokenB, fee);
    KeyOfOrderIndependent(tokenA, tokenB, fee);
    again := f.CreatePool(caller, tokenA, tokenB, fee);
    againReversed := f.CreatePool(caller, tokenB, tokenA, fee);
    inOrder := f.GetPool(tokenA, tokenB, fee);
    inReverse := f.GetPool(tokenB, tokenA, fee);
  }

  /** Handing the owner role from `wallet` to `other`: afterwards every
      owner-gated call from `wallet` fails with NotOwner, and `other` may
      enable fees, replace the allowed token ids and reassign roles. */
  method OwnerHandover(f: MauveFactory, wallet: Address, other: Address, role: Role, ids: seq<nat>)
    returns (handover: Outcome, oldSetRole: Outcome, oldSetOwner: Outcome, oldEnable: Outcome,
             oldSetIds: Outcome, newSetRole: Outcome, newEnable: Outcome, newSetIds: Outcome)
    requires f.Valid() && wallet == f.Roles(Owner) && other != wallet
    requires 100 !in f.feeAmountTickSpacing
    modifies f
    ensures f.Valid()
    ensures handover == Pass
    ensures oldSetRole == Fail(NotOwner) && oldSetOwner == Fail(NotOwner)
    ensures oldEnable == Fail(NotOwner) && oldSetIds == Fail(NotOwner)
    ensures newSetRole == Pass && newEnable == Pass && newSetIds == Pass
    ensures f.GetMauveTokenIdsAllowedToInteract() == ids
    ensures f.Roles(Owner) == (if role == Owner then wallet else other)
    ensures role != Owner ==> f.Roles(role) == wallet
    ensures f.FeeAmountTickSpacing(100) == 5
    ensures f.roles == old(f.roles)[Owner := other][role := wallet]
    ensures f.feeAmountTickSpacing == old(f.feeAmountTickSpacing)[100 := 5]
    ensures f.pools == old(f.pools)
  {
    handover := f.SetRole(wallet, other, Owner);
    oldSetRole := f.SetRole(wallet, wallet, role);
    oldSetOwner := f.SetRole(wallet, wallet, Owner);
    oldEnable := f.EnableFeeAmount(wallet, 100, 5);
    oldSetIds := f.SetMauveTokenIdsAllowedToInteract(wallet, ids);
    newEnable := f.EnableFeeAmount(other, 100, 5);
    newSetIds := f.SetMauveTokenIdsAllowedToInteract(other, ids);
    newSetRole := f.SetRole(other, wallet, role);
  }

  /** Handing the pool-admin role to `other` lets `other` create pools, and
      the owner may still reassign the role afterwards. */
  method PoolAdminHandover(f: MauveFactory, owner: Address, other: Address,
                           tokenA: Address, tokenB: Address, fee: Uint24)
    returns (handover: Outcome, created: Result<Address>, reassigned: Outcome)
    requires f.Valid() && owner == f.Roles(Owner)
    requires tokenA != tokenB && tokenA != ZERO_ADDRESS && tokenB != ZERO_ADDRESS
    requires fee in f.feeAmountTickSpacing && KeyOf(tokenA, tokenB, fee) !in f.pools
    modifies f
    ensures f.Valid()
    ensures handover == Pass && created.Ok? && reassigned == Pass
    ensures f.Roles(PoolAdmin) == owner && f.Roles(Owner) == owner
    ensures f.roles == old(f.roles)[PoolAdmin := owner]
    ensures KeyOf(tokenA, tokenB, fee) in f.pools
    ensures f.pools == old(f.pools)[KeyOf(tokenA, tokenB, fee) := f.pools[KeyOf(tokenA, tokenB, fee)]]
    ensures f.feeAmountTickSpacing == old(f.feeAmountTickSpacing)
    ensures f.tokenIdsAllowedToInteract == old(f.tokenIdsAllowedToInteract)
  {
    handover := f.SetRole(owner, other, PoolAdmin);
    created := f.CreatePool(other, tokenA, tokenB, fee);
    reassigned := f.SetRole(owner, owner, PoolAdmin);
  }

  /** Enabling a fee once succeeds; enabling it again with another spacing
      fails with AlreadyEnabled and keeps the first spacing. */
  method FeeTierImmutable(f: MauveFactory, owner: Address, fee: Uint24, first: Int24, second: Int24)
    returns (enabled: Outcome, reenabled: Outcome)
    requires f.Valid() && owner == f.Roles(Owner)
    requires fee < MAX_FEE && fee !in f.feeAmountTickSpacing
    requires 0 < first < MAX_TICK_SPACING && 0 < second < MAX_TICK_SPACING
    modifies f
    ensures f.Valid()
    ensures enabled == Pass && reenabled == Fail(AlreadyEnabled)
    ensures f.FeeAmountTickSpacing(fee) == first
    ensures f.feeAmountTickSpacing == old(f.feeAmountTickSpacing)[fee := first]
    ensures f.roles == old(f.roles) && f.pools == old(f.pools)
    ensures f.tokenIdsAllowedToInteract == old(f.tokenIdsAllowedToInteract)
  {
    enabled := f.EnableFeeAmount(owner, fee, first);
    reenabled := f.EnableFeeAmount(owner, fee, second);
  }

  /** The guards the tests exercise on a fresh factory deployed by `wallet`:
      a caller other than the pool admin gets NotPoolDeployer; identical
      tokens, a zero token or the disabled fee 250 are rejected; fee 1000000,
      spacing 0 and spacing 16834 are rejected; a non-owner cannot set the
      token ids and the list stays empty; the owner's list is stored as is. */
  method FreshFactoryGuards(factoryAddress: Address, deployAddress: PoolKey -> Address,
                            wallet: Address, other: Address, token: Address)
    returns (notAdmin: Result<Address>, identical: Result<Address>, zeroToken: Result<Address>,
             feeDisabled: Result<Address>, feeTooGreat: Outcome, spacingZero: Outcome,
             spacingTooLarge: Outcome, idsByOther: Outcome, idsAfterReject: seq<nat>,
             idsByOwner: Outcome, idsAfterSet: seq<nat>)
    requires forall key :: deployAddress(key) != ZERO_ADDRESS
    requires wallet != other && token != ZERO_ADDRESS
    ensures notAdmin == Err(NotPoolDeployer)
    ensures identical == Err(IdenticalTokens) && zeroToken == Err(ZeroAddress)
    ensures feeDisabled == Err(FeeNotEnabled)
    ensures feeTooGreat == Fail(InvalidFee)
    ensures spacingZero == Fail(InvalidTickSpacing) && spacingTooLarge == Fail(InvalidTickSpacing)
    ensures idsByOther == Fail(NotOwner) && idsAfterReject == []
    ensures idsByOwner == Pass && idsAfterSet == [0]
  {
    var f := new MauveFactory(factoryAddress, deployAddress, wallet);
    var partner: Address := if token == 1 then 2 else 1;
    notAdmin := f.CreatePool(other, token, partner, 3000);
    identical := f.CreatePool(wallet, token, token, 500);
    zeroToken := f.CreatePool(wallet, token, ZERO_ADDRESS, 500);
    feeDisabled := f.CreatePool(wallet, token, partner, 250);
    feeTooGreat := f.EnableFeeAmount(wallet, 1000000, 10);
    spacingZero := f.EnableFeeAmount(wallet, 500, 0);
    spacingTooLarge := f.EnableFeeAmount(wallet, 500, 16834);
    idsByOther := f.SetMauveTokenIdsAllowedToInteract(other, [0]);
    idsAfterReject := f.GetMauveTokenIdsAllowedToInteract();
    idsByOwner := f.SetMauveTokenIdsAllowedToInteract(wallet, [0]);
    idsAfterSet := f.GetMauveTokenIdsAllowedToInteract();
  }
}
