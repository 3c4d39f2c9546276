/** The retry delays of the outbox relay. */
module Backoff {

  const SECOND := 1_000_000_000
  const MINUTE := 60 * SECOND

  const FIRST_DELAY := 5 * SECOND
  const LONGEST_DELAY := 15 * MINUTE
  const MAX_OUTBOX_ATTEMPTS := 10

  function Pow2(n: nat): (p: nat)
    ensures p >= 1
  {
    if n == 0 then 1 else 2 * Pow2(n - 1)
  }

  // Closed form: five seconds, doubled per failed attempt, at most a quarter of an hour.
  function Delay(attempts: int): int {
    if attempts <= 1 then FIRST_DELAY
    else if FIRST_DELAY * Pow2(attempts - 1) > LONGEST_DELAY then LONGEST_DELAY
    else FIRST_DELAY * Pow2(attempts - 1)
  }

  lemma {:induction false} Pow2Grows(m: nat, n: nat)
    requires m <= n
    ensures Pow2(m) <= Pow2(n)
  {
    if m < n {
      Pow2Grows(m, n - 1);
    }
  }

  method OutboxBackoff(attempts: int) returns (backoff: int)
    ensures backoff == Delay(attempts)
  {
    backoff := FIRST_DELAY;
    var i := 1;
    while i < attempts && backoff < LONGEST_DELAY
      invariant 1 <= i && (i == 1 || i <= attempts)
      invariant backoff == FIRST_DELAY * Pow2(i - 1)
    {
      backoff := backoff * 2;
      i := i + 1;
    }
    if 1 < i {
      Pow2Grows(i - 1, attempts - 1);
    }
    if backoff > LONGEST_DELAY {
      return LONGEST_DELAY;
    }
  }

  /** The delays one by one: five seconds first, doubled up to the eighth, then always a
      quarter of an hour. */
  lemma DelaysAre(n: int)
    ensures Delay(1) == 5 * SECOND && Delay(2) == 10 * SECOND && Delay(3) == 20 * SECOND && Delay(4) == 40 * SECOND
    ensures Delay(5) == 80 * SECOND && Delay(6) == 160 * SECOND && Delay(7) == 320 * SECOND && Delay(8) == 640 * SECOND
    ensures n <= 1 ==> Delay(n) == 5 * SECOND
    ensures n >= 9 ==> Delay(n) == 900 * SECOND
  {
    assert Pow2(1) == 2 && Pow2(2) == 4 && Pow2(3) == 8 && Pow2(4) == 16;
    assert Pow2(5) == 32 && Pow2(6) == 64 && Pow2(7) == 128 && Pow2(8) == 256;
    if n >= 9 {
      Pow2Grows(8, n - 1);
    }
  }

  // The delays after failures 1 to n together.
  function TotalDelay(n: nat): int {
    if n == 0 then 0 else TotalDelay(n - 1) + Delay(n)
  }

  lemma NineDelays()
    ensures TotalDelay(9) == 2175 * SECOND && SECOND == 1_000_000_000
  {
    assert Pow2(1) == 2 && Pow2(2) == 4 && Pow2(3) == 8 && Pow2(4) == 16;
    assert Pow2(5) == 32 && Pow2(6) == 64 && Pow2(7) == 128 && Pow2(8) == 256;
    assert TotalDelay(4) == 75 * SECOND;
    assert TotalDelay(8) == 1275 * SECOND by {
      assert TotalDelay(6) == 315 * SECOND;
    }
  }
}
