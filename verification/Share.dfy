/** What a slice of a card is (internal/share/share.go). Fractions are real numbers. */
module Share {
  import DivMod

  datatype Error =
    | NoFit                       // ErrNoFit
    | NoSeats                     // a card needs at least one seat
    | BadShare                    // share outside (0, 1]
    | TooMuchMemory(card: int)    // asks for more memory than the card has
    | NoId                        // job has no id
    | NegativeGpus
    | AlreadyRunning
    | TooManyCards
    | NotRunning
    | NoRoom(card: int)           // a resize does not fit
    | NoCard

  datatype Result<+T> = Ok(value: T) | Err(error: Error)

  datatype Option<+T> = None | Some(value: T)

  const DEFAULT_SEATS := 8
  const TOLERANCE := 0.000000001
  const MIN_MEM_MIB := 256

  function Ceil(x: real): (c: int)
    ensures c as real - 1.0 < x <= c as real
  {
    -((-x).Floor)
  }

  function Max(a: int, b: int): int {
    if a < b then b else a
  }

  /** The fewest whole seats, from one to all of them, that cover the fraction up to the tolerance. */
  function Seats(fraction: real, n: int): (r: Result<int>)
    ensures n < 1 <==> r == Err(NoSeats)
    ensures 1 <= n ==> (r == Err(BadShare) <==> !(0.0 < fraction <= 1.0))
    ensures r.Ok? ==> 1 <= r.value <= n
    ensures r.Ok? ==> fraction * n as real - 0.000000001 <= r.value as real
    ensures r.Ok? && 1 < r.value ==> (r.value - 1) as real < fraction * n as real - 0.000000001
  {
    if n < 1 then Err(NoSeats)
    else if !(0.0 < fraction <= 1.0) then Err(BadShare)
    else
      var s := Ceil(fraction * n as real - TOLERANCE);
      assert fraction * n as real <= n as real;
      Ok(if s < 1 then 1 else if n < s then n else s)
  }

  /** The fraction a number of seats represents. */
  function Granted(seats: int, n: int): (part: real)
    requires n != 0
    ensures part * n as real == seats as real
  {
    seats as real / n as real
  }

  /** `math.Round` rounds halves away from zero; the argument here is never negative. */
  function ComputePercent(seats: int, n: int): (p: int)
    requires 0 <= seats && 1 <= n
    ensures 1 <= p && 100.0 * seats as real / n as real < p as real + 0.5
    ensures 1 < p ==> p as real - 0.5 <= 100.0 * seats as real / n as real
  {
    Max(1, (100.0 * seats as real / n as real + 0.5).Floor)
  }

  /** The same part of the card's memory as of its seats, and at least 256 MiB. */
  function DefaultMemMiB(seats: int, n: int, cardMiB: nat): (m: nat)
    requires 0 <= seats && 1 <= n
    ensures 256 <= m
    ensures 256 * n <= cardMiB * seats ==> m * n <= cardMiB * seats < (m + 1) * n
    ensures cardMiB * seats < 256 * n ==> m == 256
  {
    DivMod.Floor(cardMiB * seats, n, MIN_MEM_MIB);
    Max(MIN_MEM_MIB, cardMiB * seats / n)
  }
}
