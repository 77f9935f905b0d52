/** Definitions shared by the models: an optional value, time units and powers of two. */
module Common {

  datatype Option<+T> = None | Some(value: T)

  /** How one file-system step goes: it is done, it fails and changes nothing, or the process is
      killed before it. After a kill no later step of that process changes anything. */
  datatype Io = Done | Denied | Killed

  /** Durations and instants are integer nanoseconds, the unit of Go's time.Duration.
      The zero time.Time ("never") is None. */
  const SECOND: int := 1_000_000_000
  const MINUTE: int := 60 * SECOND
  const MILLISECOND: int := 1_000_000

  function Min(a: int, b: int): int {
    if a <= b then a else b
  }

  function Pow2(n: nat): (p: nat)
    ensures p >= 1
  {
    if n == 0 then 1 else 2 * Pow2(n - 1)
  }

  lemma {:induction false} Pow2Monotone(a: nat, b: nat)
    requires a <= b
    ensures Pow2(a) <= Pow2(b)
    decreases b - a
  {
    if a < b {
      Pow2Monotone(a, b - 1);
    }
  }
}
