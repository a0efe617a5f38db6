/**
 * The records the admin screens share: student profiles with their trading
 * statistics, journal trades, the errors the admin service throws, and the
 * `Math.round` arithmetic the statistics use.
 *
 * Optional text fields hold "" when absent: every use in the admin screens tests
 * them for truthiness only. P&L and percentages are integers.
 */
module AdminData {
  import opened Wrappers

  datatype Stats = Stats(totalPnL: int, winRate: int, tradesCount: int, avgRiskReward: int)

  /** A `StudentProfile`; `status` is one of active, at-risk or inactive when present. */
  datatype Student = Student(
    id: string, name: string, email: string, tier: string, status: string,
    joinedDate: string, stats: Stats)

  /**
   * A journal trade as the admin service lists it; `pnl` is `None` when the row has
   * none, and `date` is the trade's timestamp.
   */
  datatype Trade = Trade(
    id: string, studentId: string, studentName: string, pair: string, notes: string,
    status: string, pnl: Option<int>, date: int)

  /** `t.pnl || 0`. */
  function PnlOf(t: Trade): int {
    if t.pnl.Some? then t.pnl.value else 0
  }

  function PairOf(t: Trade): string { t.pair }

  function DateOf(t: Trade): int { t.date }

  /** What a failed admin-service call throws: its `message` and `code`, "" when absent. */
  datatype ServiceError = ServiceError(message: string, code: string)

  /** The settled outcome of an awaited call: a value, or a thrown error. */
  datatype Attempt<T> = Succeeded(value: T) | Threw(error: ServiceError)

  /**
   * `Math.round(a / b)` for `b > 0`: the integer nearest to `a / b`, halves rounded
   * up, which is what `Math.round` does for negative quotients too.
   */
  function RoundDiv(a: int, b: int): (r: int)
    requires b > 0
    ensures 2 * b * r <= 2 * a + b < 2 * b * (r + 1)
  {
    (2 * a + b) / (2 * b)
  }

  /** A quotient between two bounds rounds to a value between them. */
  lemma RoundDivWithin(a: int, b: int, lo: int, hi: int)
    requires b > 0 && lo * b <= a <= hi * b
    ensures lo <= RoundDiv(a, b) <= hi
  {
    var r := RoundDiv(a, b);
    Doubled(b, hi);
    ScaledLess(2 * b, r, hi + 1);
    Doubled(b, lo - 1);
    ScaledLess(2 * b, lo - 1, r);
  }

  /** `2b(x + 1)` spelled out in terms of `x * b`. */
  lemma Doubled(b: int, x: int)
    ensures 2 * b * x == 2 * (x * b) && 2 * b * (x + 1) == 2 * (x * b) + 2 * b
  {
  }

  /** A rounded percentage of a part of a whole lies between 0 and 100. */
  lemma RoundedPercentBounds(part: int, whole: int)
    requires 0 <= part <= whole && whole > 0
    ensures 0 <= RoundDiv(100 * part, whole) <= 100
  {
    RoundDivWithin(100 * part, whole, 0, 100);
  }

  /** Comparing two multiples of the same positive number compares the factors. */
  lemma ScaledLess(b: int, x: int, y: int)
    requires b > 0
    ensures b * x < b * y <==> x < y
  {
    assert b * y - b * x == b * (y - x);
  }
}
