/** Timer deadlines: the time start() computes and the ranking the heap compares. */
module Deadline {

  const NSEC: int := 1_000_000_000
  const INT_SPAN: int := 0x1_0000_0000
  const INT_HALF: int := 0x8000_0000

  datatype Timespec = Timespec(sec: int, nsec: int)

  ghost predicate Normal(t: Timespec) {
    0 <= t.nsec < NSEC
  }

  /** The instant a timespec denotes, in nanoseconds. */
  function Instant(t: Timespec): int {
    t.sec * NSEC + t.nsec
  }

  /** Conversion of a wider difference to the 32-bit `int` that ranks() returns. */
  function ToInt(x: int): int {
    (x + INT_HALF) % INT_SPAN - INT_HALF
  }

  /** How delegate `a` ranks against delegate `b`: positive if it ranks higher. */
  function Ranks(a: Timespec, b: Timespec): int {
    var rank := ToInt(b.sec - a.sec);
    if rank == 0 then ToInt(b.nsec - a.nsec) else rank
  }

  function FutureTime(now: Timespec, timeOutInMs: nat): Timespec {
    var sec := now.sec + timeOutInMs / 1000;
    var nsec := now.nsec + timeOutInMs % 1000 * 1_000_000;
    if nsec >= NSEC then Timespec(sec + nsec / NSEC, nsec % NSEC) else Timespec(sec, nsec)
  }

  /** start() computes a normal timespec exactly `timeOutInMs` after the clock reading. */
  lemma FutureTimeIsLater(now: Timespec, timeOutInMs: nat)
    requires Normal(now)
    ensures var t := FutureTime(now, timeOutInMs);
            && Normal(t)
            && Instant(t) == Instant(now) + timeOutInMs * 1_000_000
            && 0 <= t.sec - now.sec <= timeOutInMs / 1000 + 1
  {
  }

  lemma SmallToInt(x: int)
    requires -INT_HALF <= x < INT_HALF
    ensures ToInt(x) == x
  {
  }

  /** While the seconds of two deadlines differ by less than an int can hold, ranking is
      exactly the order of the instants, equal ranks meaning equal instants. */
  lemma RanksIsInstantOrder(a: Timespec, b: Timespec)
    requires Normal(a) && Normal(b)
    requires -INT_HALF <= b.sec - a.sec < INT_HALF
    ensures Ranks(a, b) > 0 <==> Instant(a) < Instant(b)
    ensures Ranks(a, b) == 0 <==> a == b
  {
    SmallToInt(b.sec - a.sec);
    SmallToInt(b.nsec - a.nsec);
  }

  /** Past that range the truncation decides: with the seconds `2^32 * turns + rest` apart,
      `rest` within an int, ranking follows `rest`.  So it goes against the instants exactly
      when `b` is the later one and `rest` does not say so, or `b` is the sooner one, and it
      does. */
  lemma RanksBeyondInt(a: Timespec, b: Timespec, turns: int, rest: int)
    requires Normal(a) && Normal(b)
    requires -INT_HALF <= rest < INT_HALF
    requires b.sec - a.sec == INT_SPAN * turns + rest
    ensures var follows := rest > 0 || (rest == 0 && b.nsec > a.nsec);
            && (Ranks(a, b) > 0 <==> follows)
            && ((Ranks(a, b) > 0) != (Instant(a) < Instant(b)) <==>
                (turns > 0 && !follows) || (turns < 0 && follows))
  {
    assert (INT_SPAN * turns + (rest + INT_HALF)) % INT_SPAN == rest + INT_HALF by {
      ModSpan(turns, rest + INT_HALF);
    }
    SmallToInt(b.nsec - a.nsec);
  }

  /** The shortest distance at which it does: a timer 2^31 seconds sooner is outranked. */
  lemma RanksAgainstInstants()
    ensures var a, b := Timespec(0, 0), Timespec(INT_HALF, 0);
            Instant(a) < Instant(b) && Ranks(a, b) < 0 && Ranks(b, a) < 0
  {
  }

  lemma ModSpan(turns: int, r: int)
    requires 0 <= r < INT_SPAN
    ensures (INT_SPAN * turns + r) % INT_SPAN == r
  {
  }

  /** Two timers started at clock readings at most 2^31 - 2^23 seconds (67 years) apart are
      therefore ranked by their instants, whatever their 32-bit timeouts. */
  lemma StartedTimersAreOrdered(now1: Timespec, ms1: nat, now2: Timespec, ms2: nat)
    requires Normal(now1) && Normal(now2) && ms1 < INT_SPAN && ms2 < INT_SPAN
    requires -INT_HALF + 0x80_0000 <= now2.sec - now1.sec <= INT_HALF - 0x80_0000
    ensures var a, b := FutureTime(now1, ms1), FutureTime(now2, ms2);
            && (Ranks(a, b) > 0 <==>
                  Instant(now1) + ms1 * 1_000_000 < Instant(now2) + ms2 * 1_000_000)
            && (Ranks(a, b) == 0 <==>
                  Instant(now1) + ms1 * 1_000_000 == Instant(now2) + ms2 * 1_000_000)
  {
    FutureTimeIsLater(now1, ms1);
    FutureTimeIsLater(now2, ms2);
    RanksIsInstantOrder(FutureTime(now1, ms1), FutureTime(now2, ms2));
  }
}
