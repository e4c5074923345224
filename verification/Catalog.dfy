/** The daily price band of an A-share board. Prices and ticks are integers, a
    whole number of some fixed decimal unit, so every product and rounding of
    the source's exact decimals is exact here too.
 */
module Catalog {

  datatype Board = Main | ChiNext

  function BandPercent(board: Board): nat {
    match board
    case Main => 10
    case ChiNext => 20
  }

  /** `num / den` rounded to the nearest integer, midpoints away from zero. */
  function Rounded(num: nat, den: nat): nat
    requires den > 0
  {
    (2 * num + den) / (2 * den)
  }

  /** `percent` percent of `price`, rounded to a whole number of ticks. */
  function ToTick(price: nat, percent: nat, tick: nat): nat
    requires tick > 0
  {
    Rounded(price * percent, 100 * tick) * tick
  }

  datatype Bounds = Bounds(up: int, down: int)

  /** `band`: both bounds on the tick grid, moved out where rounding left less
      than a tick, the lower one kept positive. */
  function Band(prevClose: nat, tick: nat, board: Board): Bounds
    requires prevClose > 0 && tick > 0
  {
    var p := BandPercent(board);
    var up := ToTick(prevClose, 100 + p, tick);
    var down := ToTick(prevClose, 100 - p, tick);
    var up' := if up - prevClose < tick then prevClose + tick else up;
    var down' := if prevClose - down < tick then prevClose - tick else down;
    Bounds(up', if down' < tick then tick else down')
  }

  // ---------------------------------------------------------------------
  // Rounding
  // ---------------------------------------------------------------------

  lemma MulOrder(a: int, b: int, c: int)
    requires a <= b && 0 <= c
    ensures a * c <= b * c
  {
  }

  lemma DivisionOnly(n: int, d: int, q: int)
    requires d > 0 && q * d <= n < q * d + d
    ensures n / d == q
  {
    var r := n / d;
    assert r * d <= n < r * d + d;
    if r < q {
      MulOrder(r + 1, q, d);
    } else if q < r {
      MulOrder(q + 1, r, d);
    }
  }

  /** Rounding is off by at most half, and only one integer is. */
  lemma RoundedNear(num: nat, den: nat)
    requires den > 0
    ensures 2 * num - den < 2 * (Rounded(num, den) * den) <= 2 * num + den
  {
    var n, d := 2 * num + den, 2 * den;
    var q := n / d;
    assert q * d <= n < q * d + d;
    assert q * d == 2 * (q * den);
  }

  lemma RoundedOnly(num: nat, den: nat, q: int)
    requires den > 0 && 2 * num - den < 2 * (q * den) <= 2 * num + den
    ensures Rounded(num, den) == q
  {
    assert q * (2 * den) == 2 * (q * den);
    DivisionOnly(2 * num + den, 2 * den, q);
  }

  lemma RoundedMonotone(a: nat, b: nat, den: nat)
    requires den > 0 && a <= b
    ensures Rounded(a, den) <= Rounded(b, den)
  {
    hide Rounded;
    RoundedNear(a, den);
    RoundedNear(b, den);
    var r, q := Rounded(a, den), Rounded(b, den);
    if q < r {
      MulOrder(q + 1, r, den);
    }
  }

  /** A bound before the floors is within half a tick of the exact percentage. */
  lemma ToTickNear(price: nat, percent: nat, tick: nat)
    requires tick > 0
    ensures -(100 * tick) < 2 * (100 * ToTick(price, percent, tick) - price * percent) <= 100 * tick
  {
    RoundedNear(price * percent, 100 * tick);
    var r := Rounded(price * percent, 100 * tick);
    assert r * (100 * tick) == 100 * (r * tick);
  }

  lemma ToTickMonotone(price: nat, price': nat, percent: nat, percent': nat, tick: nat)
    requires tick > 0 && price <= price' && percent <= percent'
    ensures ToTick(price, percent, tick) <= ToTick(price', percent', tick)
  {
    hide Rounded;
    MulOrder(price, price', percent);
    MulOrder(percent, percent', price');
    RoundedMonotone(price * percent, price' * percent', 100 * tick);
    MulOrder(Rounded(price * percent, 100 * tick), Rounded(price' * percent', 100 * tick), tick);
  }

  // ---------------------------------------------------------------------
  // Main results
  // ---------------------------------------------------------------------

  /** A valid interval around the reference with a tick of room each side, for
      every positive reference and tick. */
  lemma BandHasRoom(p: nat, tick: nat, board: Board)
    requires p > 0 && tick > 0
    ensures var b := Band(p, tick, board);
            && tick <= b.down < b.up
            && b.up >= p + tick
            && (b.down <= p - tick || b.down == tick)
  {
  }

  lemma BandMonotone(p: nat, q: nat, tick: nat, board: Board)
    requires 0 < p <= q && tick > 0
    ensures Band(p, tick, board).up <= Band(q, tick, board).up
    ensures Band(p, tick, board).down <= Band(q, tick, board).down
  {
    hide ToTick;
    var pct := BandPercent(board);
    ToTickMonotone(p, q, 100 + pct, 100 + pct, tick);
    ToTickMonotone(p, q, 100 - pct, 100 - pct, tick);
  }

  lemma ChiNextEnclosesMain(p: nat, tick: nat)
    requires p > 0 && tick > 0
    ensures Band(p, tick, ChiNext).down <= Band(p, tick, Main).down
    ensures Band(p, tick, Main).up <= Band(p, tick, ChiNext).up
  {
    hide ToTick;
    ToTickMonotone(p, p, 110, 120, tick);
    ToTickMonotone(p, p, 80, 90, tick);
  }

  /** Each bound is the percentage to within half a tick, or the floor that
      replaced it. */
  lemma BandNearPercentage(p: nat, tick: nat, board: Board)
    requires p > 0 && tick > 0
    ensures var b := Band(p, tick, board);
            var pct := BandPercent(board);
            && (b.up == p + tick
                || -(100 * tick) < 2 * (100 * b.up - p * (100 + pct)) <= 100 * tick)
            && (b.down == p - tick || b.down == tick
                || -(100 * tick) < 2 * (100 * b.down - p * (100 - pct)) <= 100 * tick)
  {
    hide ToTick;
    ToTickNear(p, 100 + BandPercent(board), tick);
    ToTickNear(p, 100 - BandPercent(board), tick);
  }

  /** Whole ticks of `n / d`, a midpoint going up or going down. */
  function HalfUp(n: nat, d: nat): nat requires d > 0 { (2 * n + d) / (2 * d) }
  function HalfDown(n: nat, d: nat): nat requires d > 0 { (2 * n + d - 1) / (2 * d) }

  function AtLeastOne(n: nat): nat {
    if n == 0 then 1 else n
  }

  /** The band of a reference that is itself a whole number of ticks, in ticks:
      the percentage of the reference each way, at least one tick, a midpoint
      widening the upper side and narrowing the lower. Both bounds are whole
      ticks. */
  lemma BandOnGrid(k: nat, tick: nat, board: Board)
    requires k > 0 && tick > 0 && k * tick > 0
    ensures var pct := BandPercent(board);
            var below := k - AtLeastOne(HalfDown(k * pct, 100));
            && Band(k * tick, tick, board).up == (k + AtLeastOne(HalfUp(k * pct, 100))) * tick
            && Band(k * tick, tick, board).down == (if below < 1 then 1 else below) * tick
  {
    hide ToTick;
    var pct := BandPercent(board);
    var above, below := HalfUp(k * pct, 100), HalfDown(k * pct, 100);
    assert k * (100 + pct) == 100 * k + k * pct && k * (100 - pct) == 100 * k - k * pct;
    GridRounding(k, tick, 100 + pct, k + above);
    GridRounding(k, tick, 100 - pct, k - below);
    Floored(k, above, tick);
    Floored(k, below, tick);
    WholeTicks(k - AtLeastOne(below), tick);
  }

  lemma Floored(k: nat, n: nat, tick: nat)
    requires tick > 0
    ensures (k + n) * tick - k * tick < tick <==> n == 0
    ensures k * tick - (k - n) * tick < tick <==> n == 0
    ensures (k + 1) * tick == k * tick + tick && (k - 1) * tick == k * tick - tick
  {
    assert (k + n) * tick == k * tick + n * tick;
    assert (k - n) * tick == k * tick - n * tick;
    WholeTicks(n, tick);
  }

  lemma WholeTicks(n: int, tick: nat)
    requires tick > 0
    ensures n * tick < tick <==> n < 1
  {
    if n < 1 {
      MulOrder(n, 0, tick);
    } else {
      MulOrder(1, n, tick);
    }
  }

  lemma GridRounding(k: nat, tick: nat, percent: nat, q: int)
    requires tick > 0
    requires 2 * (k * percent) - 100 < 200 * q <= 2 * (k * percent) + 100
    ensures ToTick(k * tick, percent, tick) == q * tick
  {
    hide Rounded;
    var m := k * percent;
    assert k * tick * percent == m * tick;
    ScaledRounding(m, tick, q);
  }

  lemma ScaledRounding(m: nat, tick: nat, q: int)
    requires tick > 0 && 2 * m - 100 < 200 * q <= 2 * m + 100
    ensures Rounded(m * tick, 100 * tick) == q
  {
    hide Rounded;
    MulOrder(2 * m - 99, 200 * q, tick);
    MulOrder(200 * q, 2 * m + 100, tick);
    assert (2 * m - 99) * tick == 2 * (m * tick) - 99 * tick;
    assert (2 * m + 100) * tick == 2 * (m * tick) + 100 * tick;
    assert 200 * q * tick == 2 * (q * (100 * tick));
    RoundedOnly(m * tick, 100 * tick, q);
  }
}
