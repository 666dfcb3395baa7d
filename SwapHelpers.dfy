/** The pure part of the swap helpers the pool tests use: which method of
    the test callee a swap goes to, which amount it passes and which price
    limit it sends when the caller gives none. Approvals and the contract
    calls themselves are left out; a helper's result is the call it would
    make. */
module SwapHelpers {
  import opened Common

  /** The smallest and largest sqrt price ratios a pool accepts. */
  const MIN_SQRT_RATIO: nat := 4295128739
  const MAX_SQRT_RATIO: nat := 1461446703485210103287273052203988822378723970342

  /** Which of the pool's two tokens the caller pays in. */
  datatype InputToken = Token0 | Token1

  /** A `BigNumberish` amount as the helpers receive it: a plain number
      literal, or a big-number object. Strict equality with the literal `0`
      holds only for the former. */
  datatype Amount = Literal(value: int) | BigNumber(value: int)

  /** The recipient: an address string, or a wallet whose address is used. */
  datatype Recipient = AddressString(address: string) | Wallet(walletAddress: string)

  /** The swap entry points of the test callee. */
  datatype SwapMethod = SwapExact0For1 | Swap0ForExact1 | SwapExact1For0 | Swap1ForExact0 {
    /** Does the method pay in token0 (moving the price down)? */
    predicate ZeroForOne()
    {
      this == SwapExact0For1 || this == Swap0ForExact1
    }

    /** Does the method fix the amount paid in (rather than received)? */
    predicate ExactInput()
    {
      this == SwapExact0For1 || this == SwapExact1For0
    }
  }

  /** The price-target entry points of the test callee. */
  datatype PriceMethod = SwapToLowerSqrtPrice | SwapToHigherSqrtPrice

  /** A call the helper makes: target contract, entry point, pool, amount,
      recipient address and sqrt price limit. */
  datatype SwapCall = SwapCall(target: string, entry: SwapMethod, pool: string, amount: Amount,
                               recipient: string, sqrtPriceLimit: int)

  /** A price-target call: target contract, entry point, pool, target price and
      recipient address. */
  datatype PriceCall = PriceCall(target: string, entry: PriceMethod, pool: string, sqrtPrice: int,
                                 recipient: string)

  /** The address a recipient stands for. */
  function ToAddress(to: Recipient): string
  {
    match to
    case AddressString(a) => a
    case Wallet(a) => a
  }

  /** The limit used when the caller gives none: one step inside the pool's
      bound on the side the swap moves the price towards. */
  function DefaultLimit(input: InputToken): (limit: int)
    ensures MIN_SQRT_RATIO < limit < MAX_SQRT_RATIO
    ensures input == Token0 ==> limit == MIN_SQRT_RATIO + 1
    ensures input == Token1 ==> limit == MAX_SQRT_RATIO - 1
  {
    if input == Token0 then MIN_SQRT_RATIO + 1 else MAX_SQRT_RATIO - 1
  }

  /** `swap(inputToken, [amountIn, amountOut], to, sqrtPriceLimitX96?,
      swapTargetOverride?)`: exact input exactly when `amountOut` is the
      literal 0; the method pays in the input token; the amount is the fixed
      side; the limit is the given one or the default. */
  function Swap(swapTarget: string, pool: string, input: InputToken, amountIn: Amount, amountOut: Amount,
                to: Recipient, sqrtPriceLimit: Option<int>, targetOverride: Option<string>): (call: SwapCall)
    ensures call.entry.ExactInput() <==> amountOut == Literal(0)
    ensures call.entry.ZeroForOne() <==> input == Token0
    ensures call.amount == (if amountOut == Literal(0) then amountIn else amountOut)
    ensures sqrtPriceLimit.Some? ==> call.sqrtPriceLimit == sqrtPriceLimit.value
    ensures sqrtPriceLimit.None? ==> MIN_SQRT_RATIO < call.sqrtPriceLimit < MAX_SQRT_RATIO
    ensures sqrtPriceLimit.None? && input == Token0 ==> call.sqrtPriceLimit == MIN_SQRT_RATIO + 1
    ensures sqrtPriceLimit.None? && input == Token1 ==> call.sqrtPriceLimit == MAX_SQRT_RATIO - 1
    ensures call.target == (if targetOverride.Some? then targetOverride.value else swapTarget)
    ensures call.pool == pool && call.recipient == ToAddress(to)
  {
    var target := if targetOverride.Some? then targetOverride.value else swapTarget;
    var exactInput := amountOut == Literal(0);
    var entry :=
      if input == Token0 then (if exactInput then SwapExact0For1 else Swap0ForExact1)
      else (if exactInput then SwapExact1For0 else Swap1ForExact0);
    var limit := if sqrtPriceLimit.None? then DefaultLimit(input) else sqrtPriceLimit.value;
    SwapCall(target, entry, pool, if exactInput then amountIn else amountOut, ToAddress(to), limit)
  }

  /** `swapToSqrtPrice`: paying in token0 pushes the price down, paying in
      token1 pushes it up, towards the same bound a defaulted swap limit in
      that token sits next to. */
  function SwapToSqrtPrice(swapTarget: string, pool: string, input: InputToken, targetPrice: int,
                           to: Recipient): (call: PriceCall)
    ensures call.entry == SwapToLowerSqrtPrice <==> input == Token0
    ensures call.entry == SwapToLowerSqrtPrice <==> DefaultLimit(input) == MIN_SQRT_RATIO + 1
    ensures call.target == swapTarget && call.pool == pool
    ensures call.sqrtPrice == targetPrice && call.recipient == ToAddress(to)
  {
    var entry := if input == Token0 then SwapToLowerSqrtPrice else SwapToHigherSqrtPrice;
    PriceCall(swapTarget, entry, pool, targetPrice, ToAddress(to))
  }

  function SwapToLowerPrice(swapTarget: string, pool: string, sqrtPrice: int, to: Recipient): PriceCall
  {
    SwapToSqrtPrice(swapTarget, pool, Token0, sqrtPrice, to)
  }

  function SwapToHigherPrice(swapTarget: string, pool: string, sqrtPrice: int, to: Recipient): PriceCall
  {
    SwapToSqrtPrice(swapTarget, pool, Token1, sqrtPrice, to)
  }

  function SwapExact0For1Call(swapTarget: string, pool: string, amount: Amount, to: Recipient,
                              sqrtPriceLimit: Option<int>, targetOverride: Option<string>): SwapCall
  {
    Swap(swapTarget, pool, Token0, amount, Literal(0), to, sqrtPriceLimit, targetOverride)
  }

  function Swap0ForExact1Call(swapTarget: string, pool: string, amount: Amount, to: Recipient,
                              sqrtPriceLimit: Option<int>, targetOverride: Option<string>): SwapCall
  {
    Swap(swapTarget, pool, Token0, Literal(0), amount, to, sqrtPriceLimit, targetOverride)
  }

  function SwapExact1For0Call(swapTarget: string, pool: string, amount: Amount, to: Recipient,
                              sqrtPriceLimit: Option<int>, targetOverride: Option<string>): SwapCall
  {
    Swap(swapTarget, pool, Token1, amount, Literal(0), to, sqrtPriceLimit, targetOverride)
  }

  function Swap1ForExact0Call(swapTarget: string, pool: string, amount: Amount, to: Recipient,
                              sqrtPriceLimit: Option<int>, targetOverride: Option<string>): SwapCall
  {
    Swap(swapTarget, pool, Token1, Literal(0), amount, to, sqrtPriceLimit, targetOverride)
  }

  /** Each of the four named helpers reaches the method it is named after
      and passes its amount through, except that an exact-output helper
      given the literal 0 falls through to the exact-input method of the
      same direction (with amount 0). */
  lemma SwapWrappersReachTheirMethods(swapTarget: string, pool: string, amount: Amount, to: Recipient,
                                      limit: Option<int>, targetOverride: Option<string>)
    ensures SwapExact0For1Call(swapTarget, pool, amount, to, limit, targetOverride).entry == SwapExact0For1
    ensures SwapExact1For0Call(swapTarget, pool, amount, to, limit, targetOverride).entry == SwapExact1For0
    ensures amount != Literal(0) ==>
              Swap0ForExact1Call(swapTarget, pool, amount, to, limit, targetOverride).entry == Swap0ForExact1
    ensures amount != Literal(0) ==>
              Swap1ForExact0Call(swapTarget, pool, amount, to, limit, targetOverride).entry == Swap1ForExact0
    ensures amount == Literal(0) ==>
              Swap0ForExact1Call(swapTarget, pool, amount, to, limit, targetOverride)
              == SwapExact0For1Call(swapTarget, pool, amount, to, limit, targetOverride)
    ensures amount == Literal(0) ==>
              Swap1ForExact0Call(swapTarget, pool, amount, to, limit, targetOverride)
              == SwapExact1For0Call(swapTarget, pool, amount, to, limit, targetOverride)
    ensures SwapExact0For1Call(swapTarget, pool, amount, to, limit, targetOverride).amount == amount
    ensures Swap0ForExact1Call(swapTarget, pool, amount, to, limit, targetOverride).amount == amount
    ensures SwapExact1For0Call(swapTarget, pool, amount, to, limit, targetOverride).amount == amount
    ensures Swap1ForExact0Call(swapTarget, pool, amount, to, limit, targetOverride).amount == amount
  {
  }

  /** `swapToLowerPrice` pays in token0 and reaches swapToLowerSqrtPrice;
      `swapToHigherPrice` pays in token1 and reaches swapToHigherSqrtPrice;
      both pass the target price and recipient through. */
  lemma PriceWrappersReachTheirMethods(swapTarget: string, pool: string, sqrtPrice: int, to: Recipient)
    ensures SwapToLowerPrice(swapTarget, pool, sqrtPrice, to).entry == SwapToLowerSqrtPrice
    ensures SwapToHigherPrice(swapTarget, pool, sqrtPrice, to).entry == SwapToHigherSqrtPrice
    ensures SwapToLowerPrice(swapTarget, pool, sqrtPrice, to).sqrtPrice == sqrtPrice
    ensures SwapToHigherPrice(swapTarget, pool, sqrtPrice, to).sqrtPrice == sqrtPrice
    ensures SwapToLowerPrice(swapTarget, pool, sqrtPrice, to).recipient == ToAddress(to)
    ensures SwapToHigherPrice(swapTarget, pool, sqrtPrice, to).recipient == ToAddress(to)
  {
  }

  /** A swap and a price-target call paying in the same token move the
      price the same way, and a defaulted limit lies on that side: the
      lower bound when the price falls, the upper bound when it rises. */
  lemma SwapDirectionAgreement(swapTarget: string, pool: string, input: InputToken, amountIn: Amount,
                               amountOut: Amount, to: Recipient, targetOverride: Option<string>,
                               targetPrice: int)
    ensures var call := Swap(swapTarget, pool, input, amountIn, amountOut, to, None, targetOverride);
            var priceCall := SwapToSqrtPrice(swapTarget, pool, input, targetPrice, to);
            && (call.entry.ZeroForOne() <==> priceCall.entry == SwapToLowerSqrtPrice)
            && (call.entry.ZeroForOne() ==> call.sqrtPriceLimit - MIN_SQRT_RATIO < MAX_SQRT_RATIO - call.sqrtPriceLimit)
            && (!call.entry.ZeroForOne() ==> MAX_SQRT_RATIO - call.sqrtPriceLimit < call.sqrtPriceLimit - MIN_SQRT_RATIO)
  {
  }
}
