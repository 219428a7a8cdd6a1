/** Tick arithmetic.  The kernel keeps time in 32-bit words that wrap; the model relates every
    stored word to the unbounded count of ticks it stands for. */
module Ticks {

  const TICKS: nat := 0x1_0000_0000

  type Tick = t: nat | t < 0x1_0000_0000

  const MAX_DELAY: Tick := 0xffff_ffff

  /** The word that a 32-bit counter holds when the true count is `time`. */
  function Stored(time: nat): Tick {
    time % TICKS
  }

  /** How often the counter has wrapped when the true count is `time`. */
  function Epoch(time: nat): nat {
    time / TICKS
  }

  /** Unsigned 32-bit addition and subtraction. */
  function Plus(a: Tick, b: Tick): Tick {
    (a + b) % TICKS
  }

  function Minus(a: Tick, b: Tick): Tick {
    (a - b) % TICKS
  }

  lemma StoredParts(time: nat)
    ensures time == Epoch(time) * TICKS + Stored(time)
  {
  }

  /** Adding in the wrapped domain stores the true sum. */
  lemma PlusStored(time: nat, delta: Tick)
    ensures Plus(Stored(time), delta) == Stored(time + delta)
  {
    StoredParts(time);
    StoredParts(time + delta);
  }

  /** Two true times less than one wrap apart are in the same epoch or in neighbouring ones, and
      comparing the stored words tells which. */
  lemma WrapIsVisible(earlier: nat, later: nat)
    requires earlier <= later < earlier + TICKS
    ensures Stored(later) < Stored(earlier) ==> Epoch(later) == Epoch(earlier) + 1
    ensures Stored(earlier) <= Stored(later) ==> Epoch(later) == Epoch(earlier)
    ensures Minus(Stored(later), Stored(earlier)) == later - earlier
  {
    StoredParts(earlier);
    StoredParts(later);
    assert Epoch(later) <= Epoch(earlier) + 1;
  }
}
