/** The tick and liquidity helpers of the test utilities: the usable tick
    range for a tick spacing, the largest liquidity a single tick may hold,
    and the standard fee amounts with their tick spacings. The floating-point
    `Math.ceil`/`Math.floor` of the helpers are modelled as exact integer
    ceiling and floor division. */
module TickMath {

  /** 2^128 - 1, the largest `uint128`. */
  const MAX_UINT128: nat := 0xffff_ffff_ffff_ffff_ffff_ffff_ffff_ffff

  /** The magnitude of the most extreme tick, before rounding to a spacing. */
  const TICK_BOUND: nat := 887272

  /** The standard fee amounts, in hundredths of a bip. */
  datatype FeeAmount = LOW | MEDIUM | HIGH {
    function Fee(): nat
    {
      match this
      case LOW => 500
      case MEDIUM => 3000
      case HIGH => 10000
    }
  }

  /** The tick spacing of each standard fee amount. */
  function TickSpacing(amount: FeeAmount): (spacing: nat)
    ensures spacing > 0
  {
    match amount
    case LOW => 10
    case MEDIUM => 60
    case HIGH => 200
  }

  /** Euclidean division and remainder are determined by their defining
      equation. */
  lemma DivModUnique(a: int, d: int, q: int, m: int)
    requires d > 0 && 0 <= m < d && a == q * d + m
    ensures a / d == q && a % d == m
  {
    var q', m' := a / d, a % d;
    assert a == q' * d + m';
    if q' < q {
      assert (q - q') * d >= d by { MulAtLeast(q - q', d); }
    } else if q' > q {
      assert (q' - q) * d >= d by { MulAtLeast(q' - q, d); }
    }
  }

  lemma MulAtLeast(k: int, d: int)
    requires k >= 1 && d > 0
    ensures k * d >= d
  {
    assert k * d == (k - 1) * d + d;
    assert (k - 1) * d >= 0;
  }

  /** A multiple of `d` leaves no remainder. */
  lemma MultipleHasNoRemainder(q: int, d: int)
    requires d > 0
    ensures (q * d) % d == 0 && (q * d) / d == q
  {
    DivModUnique(q * d, d, q, 0);
  }

  /** Floor division: the largest `q` with `q * d <= a`. */
  function FloorDiv(a: int, d: int): (q: int)
    requires d > 0
    ensures q * d <= a < q * d + d
  {
    a / d
  }

  /** Ceiling division: the smallest `q` with `a <= q * d`. */
  function CeilDiv(a: int, d: int): (q: int)
    requires d > 0
    ensures q * d - d < a <= q * d
  {
    if a % d == 0 then a / d else a / d + 1
  }

  /** `getMinTick`: -887272 rounded up to a multiple of the spacing. */
  function GetMinTick(tickSpacing: int): (tick: int)
    requires tickSpacing > 0
    ensures tick % tickSpacing == 0
    ensures -(TICK_BOUND as int) <= tick < -(TICK_BOUND as int) + tickSpacing
  {
    var q := CeilDiv(-(TICK_BOUND as int), tickSpacing);
    MultipleHasNoRemainder(q, tickSpacing);
    q * tickSpacing
  }

  /** `getMaxTick`: 887272 rounded down to a multiple of the spacing. */
  function GetMaxTick(tickSpacing: int): (tick: int)
    requires tickSpacing > 0
    ensures tick % tickSpacing == 0
    ensures TICK_BOUND - tickSpacing < tick <= TICK_BOUND
  {
    var q := FloorDiv(TICK_BOUND, tickSpacing);
    MultipleHasNoRemainder(q, tickSpacing);
    q * tickSpacing
  }

  /** The usable tick range is symmetric around zero. */
  lemma MinTickIsNegatedMaxTick(tickSpacing: int)
    requires tickSpacing > 0
    ensures GetMinTick(tickSpacing) == -GetMaxTick(tickSpacing)
  {
    var b := TICK_BOUND as int;
    var q, m := b / tickSpacing, b % tickSpacing;
    assert b == q * tickSpacing + m;
    if m == 0 {
      DivModUnique(-b, tickSpacing, -q, 0);
    } else {
      DivModUnique(-b, tickSpacing, -q - 1, tickSpacing - m);
    }
    assert CeilDiv(-b, tickSpacing) == -q;
  }

  /** The number of usable ticks, `(maxTick - minTick) / tickSpacing + 1`:
      one tick at zero and as many on each side as fit. */
  function NumUsableTicks(tickSpacing: int): (n: nat)
    requires tickSpacing > 0
    ensures n == 2 * (TICK_BOUND / tickSpacing) + 1
  {
    MinTickIsNegatedMaxTick(tickSpacing);
    var q := TICK_BOUND / tickSpacing;
    assert GetMaxTick(tickSpacing) - GetMinTick(tickSpacing) == (2 * q) * tickSpacing;
    MultipleHasNoRemainder(2 * q, tickSpacing);
    (GetMaxTick(tickSpacing) - GetMinTick(tickSpacing)) / tickSpacing + 1
  }

  /** `getMaxLiquidityPerTick`: the largest per-tick liquidity such that
      every usable tick holding it still sums to at most 2^128 - 1. */
  function GetMaxLiquidityPerTick(tickSpacing: int): (liquidity: nat)
    requires tickSpacing > 0
    ensures liquidity * NumUsableTicks(tickSpacing) <= MAX_UINT128
    ensures (liquidity + 1) * NumUsableTicks(tickSpacing) > MAX_UINT128
  {
    var n := NumUsableTicks(tickSpacing);
    var q := MAX_UINT128 / n;
    assert MAX_UINT128 == q * n + MAX_UINT128 % n;
    assert (q + 1) * n == q * n + n;
    q
  }

  lemma MulMonotone(x: int, y: int, d: int)
    requires x <= y && d >= 0
    ensures x * d <= y * d
  {
    assert y * d - x * d == (y - x) * d;
  }

  /** Floor division by a positive divisor is antitone in the divisor. */
  lemma DivAntitone(a: nat, d: int, e: int)
    requires 0 < d <= e
    ensures a / e <= a / d
  {
    var qd, qe := a / d, a / e;
    assert a == qe * e + a % e;
    assert qe >= 0;
    assert qe * d <= qe * e by { assert d * qe <= e * qe by { MulMonotone(d, e, qe); } }
    assert a == qd * d + a % d;
    if qe > qd {
      MulMonotone(qd + 1, qe, d);
    }
  }

  /** A coarser spacing leaves no more usable ticks, so it permits at least
      as much liquidity per tick. */
  lemma MaxLiquidityPerTickMonotone(s: int, t: int)
    requires 0 < s <= t
    ensures NumUsableTicks(t) <= NumUsableTicks(s)
    ensures GetMaxLiquidityPerTick(s) <= GetMaxLiquidityPerTick(t)
  {
    DivAntitone(TICK_BOUND, s, t);
    DivAntitone(MAX_UINT128, NumUsableTicks(t), NumUsableTicks(s));
  }

  /** The standard tiers' tick ranges. */
  lemma StandardTickRanges()
    ensures GetMinTick(TickSpacing(LOW)) == -887270 && GetMaxTick(TickSpacing(LOW)) == 887270
    ensures GetMinTick(TickSpacing(MEDIUM)) == -887220 && GetMaxTick(TickSpacing(MEDIUM)) == 887220
    ensures GetMinTick(TickSpacing(HIGH)) == -887200 && GetMaxTick(TickSpacing(HIGH)) == 887200
  {
    MinTickIsNegatedMaxTick(10);
    MinTickIsNegatedMaxTick(60);
    MinTickIsNegatedMaxTick(200);
  }
}
