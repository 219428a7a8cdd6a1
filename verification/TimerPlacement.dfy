/** Where the timer daemon files a timer.  The code compares wrapped words; the lemmas say what
    those comparisons mean in true time. */
module TimerPlacement {
  import opened Ticks

  datatype Placement = ProcessNow | OnCurrent | OnOverflow

  /** The decision, on the stored words alone. */
  function Place(nextExpiry: Tick, timeNow: Tick, commandTime: Tick, period: Tick): Placement {
    if nextExpiry <= timeNow then
      if Minus(timeNow, commandTime) >= period then ProcessNow else OnOverflow
    else if timeNow < commandTime && nextExpiry >= commandTime then ProcessNow
    else OnCurrent
  }

  /** For a command at true time `sent` handled at true time `now`, less than one wrap later, the
      wrapped comparisons find out exactly whether the expiry has passed and otherwise which of
      the two epochs it lies in. */
  lemma PlacementIsTrueTime(sent: nat, now: nat, period: Tick)
    requires sent <= now < sent + TICKS
    requires 0 < period
    ensures var p := Place(Stored(sent + period), Stored(now), Stored(sent), period);
            && (p == ProcessNow <==> sent + period <= now)
            && (p == OnCurrent <==> now < sent + period && Epoch(sent + period) == Epoch(now))
            && (p == OnOverflow <==> now < sent + period && Epoch(sent + period) == Epoch(now) + 1)
  {
    var due := sent + period;
    StoredParts(sent);
    StoredParts(now);
    StoredParts(due);
    WrapIsVisible(sent, now);
    WrapIsVisible(sent, due);
    if now < due {
      WrapIsVisible(now, due);
    } else {
      WrapIsVisible(due, now);
    }
  }

  /** How old a command may be.  Its age enters the comparisons only modulo 2^32, so a stale
      command is judged by its remainder: the daemon recognises a passed expiry exactly when the
      command is less than one wrap old or the remainder of its age still covers the period. */
  lemma StaleCommands(sent: nat, now: nat, period: Tick)
    requires sent <= now
    requires 0 < period
    ensures (Place(Stored(sent + period), Stored(now), Stored(sent), period) == ProcessNow
             <==> sent + period <= now)
       <==> (now - sent < TICKS || (now - sent) % TICKS >= period)
  {
    var age := now - sent;
    var recent := now - age % TICKS;
    assert recent == sent + age / TICKS * TICKS;
    SameStored(sent, age / TICKS);
    SameStored(sent + period, age / TICKS);
    PlacementIsTrueTime(recent, now, period);
    if age < TICKS {
      assert age % TICKS == age;
    }
  }

  lemma SameStored(time: nat, wraps: nat)
    ensures Stored(time + wraps * TICKS) == Stored(time)
  {
    StoredParts(time);
    StoredParts(time + wraps * TICKS);
    var a, b := Epoch(time), Epoch(time + wraps * TICKS);
    assert (b - a - wraps) * TICKS == Stored(time) - Stored(time + wraps * TICKS);
  }

  /** An instance: a command 2^32 ticks old is filed on the current list although its expiry
      passed long ago. */
  lemma StaleCommandIsMisfiled()
    ensures Place(Stored(7 + 5), Stored(7 + TICKS), Stored(7), 5) == OnCurrent
    ensures 7 + 5 <= 7 + TICKS
  {
  }
}
