# Mauve pool factory and test utilities, modelled in Dafny

This project models the pool factory of the Mauve concentrated-liquidity
exchange as a state machine, in the two variants its test suites exercise:

- `MauveFactory`, where a single role table maps each role (owner, pool admin,
  swap router, position manager) to its holder and the owner reassigns any
  role with `setRole`; the factory also keeps the list of identity token ids
  allowed to interact with its pools;
- `UniswapV3Factory`, where each role is its own field with its own
  owner-gated setter, and each change emits an (old, new) event.

Both share the fee-tier table (`feeAmountTickSpacing`) and the pool registry
(`getPool`), with the guards of `createPool` and `enableFeeAmount` checked in
a fixed order. The model also covers the integer helpers of the shared test
utilities: the usable tick range for a tick spacing, the largest liquidity
per tick, the standard fee amounts and their tick spacings, the token
ordering and hash input of the deterministic pool address helper, and the
pure choice the swap helpers make (which callee entry point, which amount,
which default price limit).

Layout:

- `Common.dfy`: addresses (160-bit), `uint24`/`int24` ranges, the error
  reasons and events, `Result`/`Outcome`/`Option`.
- `FactoryCore.dfy`: the guards and registry logic both factories share, as
  pure functions, and the invariants they keep.
- `Mauve.dfy`: class `MauveFactory` (role table) and client methods that
  replay the test scenarios.
- `UniswapV3.dfy`: class `UniswapV3Factory` (field per role) and client
  methods that replay the test scenarios.
- `TickMath.dfy`: `getMinTick`, `getMaxTick`, `getMaxLiquidityPerTick`,
  `FeeAmount` and `TICK_SPACINGS`.
- `Create2.dfy`: `getCreate2Address` up to the final hash: the
  case-insensitive token order and the CREATE2 (EIP-1014) hash input, with
  Keccak-256 as a symbolic term that is injective (collision-free).
- `SwapHelpers.dfy`: the swap helpers' choice of entry point, amount and
  default sqrt price limit.

Modelling choices:

- The deployed address of a pool is a parameter of each factory: a function
  `deployAddress` from pool key to a nonzero address, as the CREATE2 rule
  makes it a deterministic function of the key.
- A caller that fails a role check gets `NotOwner` (the `OO`/`onlyOwner`
  revert reason) or `NotPoolDeployer` (`OPA`/`onlyPoolDeployer`). The
  validation failures are distinguished by name, whereas the tests only
  expect a revert.
- `MAX_TICK_SPACING` = 16384 is a named bound on an enabled tick spacing.
  No test fixes either spacing bound: the spacings 0 and 16834 are tried
  with fee 500, which a fresh factory already enables, so those calls
  revert whatever the bounds are. Spacings up to 200 are accepted.
- The order of the guards is this model's own choice, and no test fixes it.
  Some calls fail two guards at once (`createPool(0, 0, LOW)`: identical
  tokens and a zero token; `enableFeeAmount(500, 0)`: a bad spacing and an
  enabled fee), but those tests expect only a revert, or a revert with an
  empty reason. For `createPool` the order is: caller role, identical
  tokens, zero token, fee enabled, existing pool. For `enableFeeAmount` it
  is: caller role, fee bound, spacing bound, fee already enabled.
- Hex strings are compared and hashed lower-cased.

## Model

| member | source | states |
|---|---|---|
| TickMath.TickSpacing | test/shared/utilities.ts:27-31 | every standard fee amount has a positive tick spacing (10, 60, 200 for LOW, MEDIUM, HIGH) |
| TickMath.FloorDiv | test/shared/utilities.ts:11 | `Math.floor(a / d)` is the largest q with q·d ≤ a |
| TickMath.CeilDiv | test/shared/utilities.ts:10 | `Math.ceil(a / d)` is the smallest q with a ≤ q·d |
| TickMath.GetMinTick | test/shared/utilities.ts:10 | the min tick is a multiple of the spacing and the smallest one not below -887272 |
| TickMath.GetMaxTick | test/shared/utilities.ts:11 | the max tick is a multiple of the spacing and the largest one not above 887272 |
| TickMath.MinTickIsNegatedMaxTick | test/shared/utilities.ts:10-11 | for every positive spacing the usable tick range is symmetric: min tick = -max tick |
| TickMath.NumUsableTicks | test/shared/utilities.ts:16 | the number of usable ticks is 2·⌊887272 / spacing⌋ + 1 |
| TickMath.GetMaxLiquidityPerTick | test/shared/utilities.ts:12-16 | the largest per-tick liquidity such that all usable ticks together hold at most 2^128 - 1: one more unit per tick would exceed it |
| TickMath.MaxLiquidityPerTickMonotone | test/shared/utilities.ts:12-16 | a coarser spacing has no more usable ticks and allows at least as much liquidity per tick |
| TickMath.StandardTickRanges | test/shared/utilities.ts:10-11 | the tick ranges of spacings 10, 60 and 200 are ±887270, ±887220 and ±887200 |
| FactoryCore.SortTokens | test/MauveFactory.spec.ts:79-85 | the pair comes out as the two inputs in ascending order, strictly ascending when they differ |
| FactoryCore.KeyOf | test/MauveFactory.spec.ts:74-77 | the registry key holds the same two tokens as the call, ordered, with the call's fee |
| FactoryCore.KeyOfOrderIndependent | test/MauveFactory.spec.ts:74-77 | the key is the same whichever order the tokens are passed in |
| FactoryCore.NewPool | test/MauveFactory.spec.ts:79-85 | a pool created for a checked key holds two distinct nonzero tokens in ascending order, and under valid tiers a fee below 1000000 and a spacing strictly inside (0, MAX_TICK_SPACING) |
| FactoryCore.LookupPoolProperties | test/MauveFactory.spec.ts:76-77 | `getPool` answers the same in both argument orders, a nonzero address exactly for created pools, and that address is the pool's deterministic address |
| FactoryCore.CreatePoolCheck | test/MauveFactory.spec.ts:104-128 | createPool fails with the first failing guard, each as an if-and-only-if: caller not pool admin, identical tokens, a zero token, fee not enabled, pool already exists; otherwise it yields the ordered key with 0 < token0 < token1 |
| FactoryCore.EnableFeeCheck | test/MauveFactory.spec.ts:244-260 | enableFeeAmount fails with the first failing guard, each as an if-and-only-if: caller not owner, fee ≥ 1000000, spacing outside (0, MAX_TICK_SPACING), fee already enabled |
| FactoryCore.EnableFeePreservesInvariants | test/MauveFactory.spec.ts:257-264 | enabling a fee that passed the guards keeps every tier valid, keeps every existing tier's spacing and keeps every registered pool consistent |
| FactoryCore.CreatePoolPreservesRegistry | test/MauveFactory.spec.ts:62-86 | registering a pool whose key passed the guards keeps the registry consistent |
| FactoryCore.DefaultTiersMatchTickSpacings | test/MauveFactory.spec.ts:56-60 | a fresh factory enables exactly the fees 500, 3000 and 10000, each with its `TICK_SPACINGS` entry, and these tiers are valid |
| Mauve.MauveFactory.constructor | test/MauveFactory.spec.ts:42-44 | the deployer holds the owner and pool-admin roles; the standard tiers are enabled, fee 250 is not; no pools and no allowed token ids |
| Mauve.MauveFactory.SetRole | test/MauveFactory.spec.ts:141-242 | only the current owner may call it, failing with NotOwner otherwise; it overwrites exactly the given role and changes nothing else |
| Mauve.MauveFactory.CreatePool | test/MauveFactory.spec.ts:62-134 | with the pool admin as caller it follows CreatePoolCheck: on success it registers the pool for the ordered key and logs PoolCreated(token0, token1, fee, tickSpacing, address); on failure it changes nothing; the factory stays consistent |
| Mauve.MauveFactory.EnableFeeAmount | test/MauveFactory.spec.ts:244-272 | the outcome is EnableFeeCheck's; on success exactly that fee is added with its spacing and FeeAmountEnabled is logged; on failure nothing changes |
| Mauve.MauveFactory.SetMauveTokenIdsAllowedToInteract | test/MauveFactory.spec.ts:274-296 | only the owner may replace the list of allowed token ids, which is then read back unchanged; a rejected call leaves the list as it was |
| Mauve.GetPoolOrderIndependent | test/MauveFactory.spec.ts:76-77 | `getPool` answers the same in both argument orders, nonzero exactly for created pools |
| Mauve.CreateAndCheckPool | test/MauveFactory.spec.ts:62-86 | after a successful createPool, creating again in either order fails with PoolExists, getPool returns the new address in both orders, and the pool holds the ordered tokens, the fee, its spacing and this factory; only that pool and its PoolCreated event are added, and roles, tiers and token ids are kept |
| Mauve.OwnerHandover | test/MauveFactory.spec.ts:160-168 | once the owner role moves to another address, the former owner's setRole, enableFeeAmount and token-id calls all fail with NotOwner, and the new owner's enableFeeAmount, token-id and setRole calls succeed, the token ids then reading back as set; the roles end as the two setRole calls leave them, fee 100 is the only tier added, and the pools are kept |
| Mauve.PoolAdminHandover | test/MauveFactory.spec.ts:130-134 | after the pool-admin role is given to another address, that address can create a pool, and the owner can still reassign the role; only that pool is added, and tiers, token ids and the other roles are kept |
| Mauve.FeeTierImmutable | test/MauveFactory.spec.ts:257-264 | enabling a fee a second time fails with AlreadyEnabled and the first spacing stays; only that tier is added, and roles, pools and token ids are kept |
| Mauve.FreshFactoryGuards | test/MauveFactory.spec.ts:104-128 | on a fresh factory: a non-admin caller, identical tokens, a zero token and fee 250 are rejected by createPool with their reasons; fee 1000000 and spacings 0 and 16834 are rejected by enableFeeAmount; a non-owner cannot set the token ids, and the owner's `[0]` is read back |
| UniswapV3.UniswapV3Factory.constructor | test/UniswapV3Factory.spec.ts:40-42 | the deployer is owner and pool deployer; swap router and position manager are zero; the standard tiers are enabled; no pools |
| UniswapV3.UniswapV3Factory.SetOwner | test/UniswapV3Factory.spec.ts:245-265 | only the owner may call it; on success it overwrites the owner and logs OwnerChanged(old, new), touching no other field |
| UniswapV3.UniswapV3Factory.SetPoolDeployer | test/UniswapV3Factory.spec.ts:139-173 | only the owner may call it; on success it overwrites the pool deployer and logs PoolDeployerChanged(old, new), touching no other field |
| UniswapV3.UniswapV3Factory.SetSwapRouter | test/UniswapV3Factory.spec.ts:175-208 | only the owner may call it; on success it overwrites the swap router and logs SwapRouterChanged(old, new), touching no other field |
| UniswapV3.UniswapV3Factory.SetPositionManager | test/UniswapV3Factory.spec.ts:210-243 | only the owner may call it; on success it overwrites the position manager and logs PositionManagerChanged(old, new), touching no other field |
| UniswapV3.UniswapV3Factory.CreatePool | test/UniswapV3Factory.spec.ts:60-137 | with the pool deployer as caller it follows CreatePoolCheck: on success it registers the pool for the ordered key and logs PoolCreated; on failure nothing changes |
| UniswapV3.UniswapV3Factory.EnableFeeAmount | test/UniswapV3Factory.spec.ts:267-295 | the outcome is EnableFeeCheck's; on success exactly that fee is added and FeeAmountEnabled is logged; on failure nothing changes |
| UniswapV3.GetPoolOrderIndependent | test/UniswapV3Factory.spec.ts:74-75 | `getPool` answers the same in both argument orders, nonzero exactly for created pools |
| UniswapV3.CreateAndCheckPool | test/UniswapV3Factory.spec.ts:60-84 | after a successful createPool, a repeat in either order fails with PoolExists, getPool agrees in both orders, and the pool records the ordered tokens, the fee and its spacing; only that pool and its PoolCreated event are added, and roles and tiers are kept |
| UniswapV3.OwnerHandover | test/UniswapV3Factory.spec.ts:164-172 | after setOwner(other) the former owner fails on every owner-gated setter, setOwner included, and on enableFeeAmount; the new owner succeeds on setPoolDeployer, setSwapRouter, setPositionManager, enableFeeAmount and setOwner; the log gains exactly the six events of the successful calls, fee 100 is the only tier added, and the pools are kept |
| UniswapV3.FreshFactoryRoleEvents | test/UniswapV3Factory.spec.ts:153-157 | on a fresh factory the first change of each role reports the deployer, or zero for router and manager, as the old value; a non-owner is rejected by every setter and logs nothing |
| UniswapV3.FreshFactoryCreateGuards | test/UniswapV3Factory.spec.ts:102-132 | on a fresh factory createPool rejects a non-deployer caller, identical tokens, a zero token and fee 250; after setPoolDeployer(other), `other` creates a pool |
| UniswapV3.FreshFactoryFeeGuards | test/UniswapV3Factory.spec.ts:267-294 | enableFeeAmount rejects fee 1000000 and spacings 0 and 16834, enables fee 100 with spacing 5 once only, and a newly enabled fee allows pool creation |
| Create2.ToLower | test/shared/utilities.ts:43 | `toLowerCase` keeps the length and lower-cases each ASCII letter in place |
| Create2.LexLessIrreflexive | test/shared/utilities.ts:43 | JavaScript string `<` is irreflexive |
| Create2.LexLessAsymmetric | test/shared/utilities.ts:43 | JavaScript string `<` is asymmetric |
| Create2.LexLessTotal | test/shared/utilities.ts:43 | any two different strings are ordered by `<` one way or the other |
| Create2.LexLessTransitive | test/shared/utilities.ts:43 | JavaScript string `<` is transitive |
| Create2.SortPair | test/shared/utilities.ts:43 | the helper's `[token0, token1]` is the input pair or its swap, ascending in lower case, strictly when the lower-cased tokens differ |
| Create2.GetCreate2Address | test/shared/utilities.ts:37-58 | the hash input holds the factory, the hash of the bytecode, and a salt that hashes the ordered pair of lower-cased tokens together with the fee |
| Create2.Create2OfLowered | test/shared/utilities.ts:43-55 | the hash input depends on the tokens only through their lower-cased forms |
| Create2.SortedPoolKeyInjective | test/shared/utilities.ts:43-52 | two salts coincide exactly when they have the same fee and the same token pair in either order |
| Create2.Create2OrderIndependent | test/shared/utilities.ts:37-58 | the address is the same whichever order the two tokens are listed in |
| Create2.LoweredInputInjective | test/shared/utilities.ts:48-56 | a hash input built from lower-cased parts determines the factory, the fee, the bytecode and the token pair up to order |
| Create2.Create2InputInjective | test/shared/utilities.ts:37-58 | two calls give the same hash input exactly when they have the same factory, fee and bytecode, and the same token pair in either order, letter case aside |
| Create2.LexLessIsNumericOrder | test/shared/utilities.ts:43 | on lower-case hex strings of equal length, string `<` is numeric `<` |
| Create2.LowerHexValue | test/shared/utilities.ts:43 | lower-casing a hex string keeps its numeric value |
| Create2.SortPairMatchesFactory | test/shared/utilities.ts:43 | for address strings the helper's case-insensitive order is the factory's numeric order, so both pick the same token0 and token1 |
| SwapHelpers.DefaultLimit | test/shared/utilities.ts:162-168 | the default limit lies strictly inside (MIN_SQRT_RATIO, MAX_SQRT_RATIO): MIN_SQRT_RATIO + 1 for token0 input, MAX_SQRT_RATIO - 1 for token1 input |
| SwapHelpers.Swap | test/shared/utilities.ts:143-174 | the swap is exact-input exactly when amountOut is the literal 0; the entry point pays in the input token; the amount passed is the fixed side; the limit is the caller's if given, else the default; an override target replaces the default one |
| SwapHelpers.SwapToSqrtPrice | test/shared/utilities.ts:129-141 | the price-target call moves the price towards the lower bound exactly when a defaulted swap paying in the same token would set its limit next to the lower bound, i.e. exactly for token0 |
| SwapHelpers.SwapWrappersReachTheirMethods | test/shared/utilities.ts:184-198 | each named swap helper reaches the entry point it is named after and passes its amount through, except that an exact-output helper given the literal 0 becomes the exact-input call in the same direction |
| SwapHelpers.PriceWrappersReachTheirMethods | test/shared/utilities.ts:176-182 | swapToLowerPrice reaches swapToLowerSqrtPrice and swapToHigherPrice reaches swapToHigherSqrtPrice, with price and recipient passed through |
| SwapHelpers.SwapDirectionAgreement | test/shared/utilities.ts:134 | a swap and a price-target call that pay in the same token move the price the same way, and a default limit lies at the bound on that side |

## Left out

- The Solidity sources of the factories and the pool are not part of this model. The factory behaviour is the one the two test suites assert. The reasons other than `OO`/`OPA`/`onlyOwner`/`onlyPoolDeployer` are named here but not by the tests.
- The pool engine is out of scope: swap, mint, burn, collect, ticks, positions and sqrt-price math.
- `mint`, `burn` and `collect` of `createPoolFunctions` are left out. `mint` approves both tokens; `burn` and `collect` approve nothing. Each of the three calls `targetContractOverride` when it is given and `swapTarget` otherwise, and passes its arguments through. That target choice is the one modelled for `swap` in `SwapHelpers.Swap`.
- `createMultiPoolFunctions` (`swapForExact0Multi`, `swapForExact1Multi`) is left out for the same reason.
- Token approvals, async calls, fixtures, gas snapshots and bytecode-size snapshots are left out.
- Keccak-256, ABI encoding and `getAddress` checksumming are foreign:
  - a digest is a symbolic term of its preimage, so two digests are equal exactly when their preimages are;
  - the last 20 bytes of the final hash are not computed;
  - checksum validation is not modelled.
- `getPositionKey` is left out: it is a hash of a packed encoding, which is foreign in the same way.
- `encodePriceSqrt` is left out: it is an arbitrary-precision decimal square root.
- `expandTo18Decimals` is left out: it is a plain multiplication by 10^18 that no core property uses.
- Role keys are the four named roles. `setRole` with any other `bytes32` key is not modelled.
- TickMath.GetMinTick: JavaScript's floating-point `Math.ceil`/`Math.floor` of `-887272 / tickSpacing` is modelled as exact integer ceiling and floor division. Rounding of doubles is not modelled; it is exact for the spacings in use.
- TickMath.GetMaxLiquidityPerTick: the tick count is computed exactly. The floating-point division in the source is not modelled.
- FactoryCore.EnableFeeCheck: the spacing bounds (above 0, below `MAX_TICK_SPACING` = 16384) are not fixed by any test. The tests try spacings 0 and 16834 only with fee 500, which is already enabled, so those calls revert whatever the bounds are.
- Mauve.MauveFactory.constructor: the swap-router and position-manager roles start at zero. The tests do not say what they start as.
- Mauve.MauveFactory.constructor: the events a deployment emits are not logged.
- UniswapV3.UniswapV3Factory.constructor: the events a deployment emits are not logged.
- Create2.ToLower: letter case folding covers ASCII only, which is all an address or hex string holds.
- SwapHelpers.Swap: JavaScript `===` on amounts is modelled by distinguishing a number literal from a big-number object. Other `BigNumberish` forms, such as strings, are not distinguished.
- SwapHelpers.Swap: the `inputToken === token0` test is modelled by the token choice itself, since the wrappers only ever pass token0 or token1.
- Create2.LoweredInputInjective: Keccak-256 is modelled as injective (collision-free), and the lemma's "only if" direction rests on that.
- Create2.Create2InputInjective: its "only if" direction rests on Keccak-256 being modelled as collision-free.
- Create2.LexLess: it compares Unicode scalar values, whereas JavaScript's string `<` compares UTF-16 code units. The two orders differ only between characters above U+FFFF and characters in U+E000–U+FFFF, and hex and address strings contain neither.
- Mauve.MauveFactory.SetRole: any events `setRole` emits are not modelled, and the tests check none. The model's log stays unchanged.
- Mauve.MauveFactory.SetMauveTokenIdsAllowedToInteract: any events it emits are not modelled, and the tests check none. The model's log stays unchanged.
