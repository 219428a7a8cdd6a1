/** The software timer daemon. */
module Timers {
  import opened Ticks
  import opened ListModel
  import opened Sequences
  import opened TimerHistory
  import opened TimerPlacement

  datatype Timer = Timer(period: Tick, autoReload: bool)

  /** One internal restart message: the true time it carries. */
  datatype Requeue = Requeue(timer: TimerId, time: nat)

  /** The due time of the k-th callback of a timer started at `start`. */
  function Nominal(start: nat, period: nat, k: nat): nat {
    start + k * period
  }

  lemma NominalNext(start: nat, period: nat, k: nat)
    ensures Nominal(start, period, k + 1) == Nominal(start, period, k) + period
  {
  }

  /** `n` due times, `period` apart. */
  function Arith(first: nat, period: nat, n: nat): seq<nat>
    decreases n
  {
    if n == 0 then [] else [first] + Arith(first + period, period, n - 1)
  }

  /** The due times that the callback of `t` ran for. */
  function CallsOf(calls: seq<Call>, t: TimerId): seq<nat> {
    var runs := Runs(calls, t);
    seq(|runs|, i requires 0 <= i < |runs| => runs[i].nominal)
  }

  function RequeuesOf(requeues: seq<Requeue>, t: TimerId): seq<nat> {
    if requeues == [] then []
    else RequeuesOf(requeues[..|requeues| - 1], t) +
         (if requeues[|requeues| - 1].timer == t then [requeues[|requeues| - 1].time] else [])
  }

  lemma CallsOfAppend(calls: seq<Call>, c: Call, t: TimerId)
    ensures CallsOf(calls + [c], t) == CallsOf(calls, t) + (if c.timer == t then [c.nominal] else [])
  {
    RunsAppend(calls, c, t);
  }

  lemma RequeuesOfAppend(requeues: seq<Requeue>, r: Requeue, t: TimerId)
    ensures RequeuesOf(requeues + [r], t) == RequeuesOf(requeues, t) + (if r.timer == t then [r.time] else [])
  {
    assert (requeues + [r])[..|requeues|] == requeues;
  }

  /** How many due times `due`, `due + period`, ... fall before the next wrap. */
  function LeftInEpoch(due: nat, period: nat): nat
    requires period > 0
  {
    (TICKS - 1 - Stored(due)) / period + 1
  }

  /** The due times served while the lists are switched, for a timer due at `due`. */
  function ServedBySwitch(timer: Timer, due: nat): seq<nat>
    requires timer.period > 0
  {
    if timer.autoReload then Arith(due, timer.period, LeftInEpoch(due, timer.period)) else [due]
  }

  /** The restart messages sent while the lists are switched: one, carrying the last due time. */
  function RequeuedBySwitch(timer: Timer, due: nat): seq<nat>
    requires timer.period > 0
  {
    if timer.autoReload then [Nominal(due, timer.period, LeftInEpoch(due, timer.period) - 1)] else []
  }

  lemma BeforeTheWrap(due: nat, epoch: nat, sampled: nat)
    requires Epoch(due) == epoch && Epoch(sampled) == epoch + 1
    ensures due < sampled
  {
  }

  /** The reload word is larger than the expired one exactly when the sum did not wrap. */
  lemma ReloadTime(due: nat, period: Tick)
    requires period > 0
    ensures Plus(Stored(due), period) > Stored(due) <==> Stored(due) + period < TICKS
    ensures Stored(due) + period < TICKS ==>
      Stored(due + period) == Stored(due) + period && Epoch(due + period) == Epoch(due)
  {
    StoredParts(due);
    StoredParts(due + period);
  }

  lemma OneLess(a: nat, p: nat)
    requires 0 < p <= a
    ensures (a - p) / p == a / p - 1
  {
    var q, r := a / p, a % p;
    assert a - p == p * (q - 1) + r;
    DivUnique(a - p, p, q - 1, r);
  }

  lemma DivUnique(a: int, p: nat, q: int, r: int)
    requires p > 0 && a == p * q + r && 0 <= r < p
    ensures a / p == q
  {
    var q', r' := a / p, a % p;
    assert p * (q' - q) == r - r';
    if q' > q { MulAtLeast(p, q' - q); } else if q' < q { MulAtLeast(p, q - q'); }
  }

  /** Between the k-th due time and the next, k due times have come. */
  lemma CountDue(c: nat, p: nat, k: nat, clock: nat)
    requires p > 0 && Nominal(c, p, k) <= clock < Nominal(c, p, k + 1)
    ensures c <= clock && (clock - c) / p == k
  {
    NominalNext(c, p, k);
    assert clock - c == p * k + (clock - c - k * p);
    DivUnique(clock - c, p, k, clock - c - k * p);
  }

  lemma DivPositive(a: nat, p: nat)
    requires 0 < p <= a
    ensures a / p >= 1
  {
    OneLess(a, p);
  }

  lemma MulAtLeast(p: nat, k: int)
    requires k >= 1
    ensures p * k >= p
  {
  }

  /** One reload inside the epoch uses up one of the due times that are left. */
  lemma ReloadInEpoch(timer: Timer, due: nat)
    requires timer.period > 0 && timer.autoReload
    requires Stored(due) + timer.period < TICKS
    ensures Stored(due + timer.period) == Stored(due) + timer.period
    ensures Epoch(due + timer.period) == Epoch(due)
    ensures ServedBySwitch(timer, due) == [due] + ServedBySwitch(timer, due + timer.period)
    ensures RequeuedBySwitch(timer, due) == RequeuedBySwitch(timer, due + timer.period)
  {
    var p := timer.period;
    ReloadTime(due, p);
    OneLess(TICKS - 1 - Stored(due), p);
    var n := LeftInEpoch(due, p);
    assert LeftInEpoch(due + p, p) == n - 1;
    NominalNext(due, p, n - 2);
  }

  lemma LastReloadInEpoch(timer: Timer, due: nat)
    requires timer.period > 0 && timer.autoReload
    requires TICKS <= Stored(due) + timer.period
    ensures ServedBySwitch(timer, due) == [due]
    ensures RequeuedBySwitch(timer, due) == [due]
  {
    var p := timer.period;
    assert (TICKS - 1 - Stored(due)) / p == 0;
    assert Arith(due + p, p, 0) == [];
  }

  /** The account of one timer while the lists are switched: what has been served or sent so far,
      and what its entry on the current list still promises, make up what it started with. */
  ghost predicate Balanced(t: TimerId, calls: seq<Call>, requeues: seq<Requeue>, listed: bool,
                           timer: Timer, due: nat, due0: nat)
    requires timer.period > 0
  {
    && CallsOf(calls, t) + (if listed then ServedBySwitch(timer, due) else []) == ServedBySwitch(timer, due0)
    && RequeuesOf(requeues, t) + (if listed then RequeuedBySwitch(timer, due) else []) == RequeuedBySwitch(timer, due0)
  }

  lemma BalancedElsewhere(t: TimerId, calls: seq<Call>, requeues: seq<Requeue>, listed: bool, timer: Timer,
                          due: nat, due0: nat, c: Call, more: seq<Requeue>)
    requires timer.period > 0 && Balanced(t, calls, requeues, listed, timer, due, due0)
    requires c.timer != t && |more| <= 1 && (more != [] ==> more[0].timer != t)
    ensures Balanced(t, calls + [c], requeues + more, listed, timer, due, due0)
  {
    CallsOfAppend(calls, c, t);
    if more != [] {
      RequeuesOfAppend(requeues, more[0], t);
      assert requeues + more == requeues + [more[0]];
    } else {
      assert requeues + more == requeues;
    }
  }

  lemma BalancedAgain(t: TimerId, calls: seq<Call>, requeues: seq<Requeue>, timer: Timer,
                      due: nat, due0: nat, c: Call)
    requires timer.period > 0 && Balanced(t, calls, requeues, true, timer, due, due0)
    requires timer.autoReload && Stored(due) + timer.period < TICKS
    requires c.timer == t && c.nominal == due
    ensures Balanced(t, calls + [c], requeues, true, timer, due + timer.period, due0)
  {
    CallsOfAppend(calls, c, t);
    ReloadInEpoch(timer, due);
    assert CallsOf(calls, t) + ([due] + ServedBySwitch(timer, due + timer.period))
        == CallsOf(calls, t) + [due] + ServedBySwitch(timer, due + timer.period);
  }

  lemma BalancedLast(t: TimerId, calls: seq<Call>, requeues: seq<Requeue>, timer: Timer,
                     due: nat, due0: nat, c: Call)
    requires timer.period > 0 && Balanced(t, calls, requeues, true, timer, due, due0)
    requires timer.autoReload ==> TICKS <= Stored(due) + timer.period
    requires c.timer == t && c.nominal == due
    ensures Balanced(t, calls + [c], requeues + (if timer.autoReload then [Requeue(t, due)] else []),
                     false, timer, due, due0)
  {
    CallsOfAppend(calls, c, t);
    if timer.autoReload {
      LastReloadInEpoch(timer, due);
      RequeuesOfAppend(requeues, Requeue(t, due), t);
    } else {
      assert requeues + [] == requeues;
    }
  }

  /** One round for timer `t`, seen by the account of timer `u`. */
  lemma BalancedStep(u: TimerId, calls: seq<Call>, requeues: seq<Requeue>, listed: bool, timer: Timer, before: nat,
                     due0: nat, t: TimerId, due: nat, at: nat, again: bool, more: seq<Requeue>, listedNow: bool, now: nat)
    requires timer.period > 0 && Balanced(u, calls, requeues, listed, timer, before, due0)
    requires more == [] || more == [Requeue(t, due)]
    requires u != t ==> listedNow == listed && now == before
    requires u == t ==>
      && listed && before == due && listedNow == again
      && (again <==> timer.autoReload && Stored(due) + timer.period < TICKS)
      && (again ==> now == due + timer.period)
      && (more != [] <==> !again && timer.autoReload)
    ensures Balanced(u, calls + [Call(t, due, at)], requeues + more, listedNow, timer, now, due0)
  {
    if u != t {
      BalancedElsewhere(u, calls, requeues, listed, timer, before, due0, Call(t, due, at), more);
    } else if again {
      BalancedAgain(u, calls, requeues, timer, due, due0, Call(t, due, at));
      assert requeues + more == requeues;
    } else {
      BalancedLast(u, calls, requeues, timer, due, due0, Call(t, due, at));
    }
  }

  lemma BalancedDone(t: TimerId, calls: seq<Call>, requeues: seq<Requeue>, timer: Timer, due: nat, due0: nat)
    requires timer.period > 0 && Balanced(t, calls, requeues, false, timer, due, due0)
    ensures CallsOf(calls, t) == ServedBySwitch(timer, due0)
    ensures RequeuesOf(requeues, t) == RequeuedBySwitch(timer, due0)
  {
    assert CallsOf(calls, t) + [] == CallsOf(calls, t);
    assert RequeuesOf(requeues, t) + [] == RequeuesOf(requeues, t);
  }

  lemma BalancedFirst(t: TimerId, timer: Timer, due: nat)
    requires timer.period > 0
    ensures Balanced(t, [], [], true, timer, due, due)
  {
  }

  lemma SinceAppend<T>(s: seq<T>, k: nat, more: seq<T>)
    requires k <= |s|
    ensures (s + more)[k..] == s[k..] + more
  {
  }

  /** How much the switching loop still has to do. */
  function Work(s: seq<Entry>): nat {
    if s == [] then 0 else TICKS - s[0].value + Work(s[1..])
  }

  lemma WorkHead(s: seq<Entry>)
    requires s != []
    ensures Work(s) == TICKS - s[0].value + Work(s[1..])
  {
  }

  lemma {:induction false} WorkInserted(s: seq<Entry>, e: Entry)
    ensures Work(Inserted(s, e)) == Work(s) + TICKS - e.value
  {
    if s == [] || e.value < s[0].value {
      assert Inserted(s, e) == [e] + s;
    } else {
      assert Inserted(s, e) == [s[0]] + Inserted(s[1..], e);
      WorkInserted(s[1..], e);
    }
  }

  /** An entry of a list whose timers are due in epoch `epoch`. */
  ghost predicate EntryOk(e: Entry, ids: set<TimerId>, expiry: map<TimerId, nat>, epoch: nat) {
    && e.owner in ids
    && e.owner in expiry
    && e.value == Stored(expiry[e.owner])
    && Epoch(expiry[e.owner]) == epoch
  }

  ghost predicate ListOk(s: seq<Entry>, ids: set<TimerId>, expiry: map<TimerId, nat>, epoch: nat) {
    && Sorted(s) && DistinctOwners(s)
    && (forall e :: e in s ==> EntryOk(e, ids, expiry, epoch))
  }

  /** The current list is due in `epoch`, the overflow list in the next; no timer is on both. */
  ghost predicate ListsOk(current: seq<Entry>, overflow: seq<Entry>, ids: set<TimerId>,
                          expiry: map<TimerId, nat>, epoch: nat)
  {
    && ListOk(current, ids, expiry, epoch)
    && ListOk(overflow, ids, expiry, epoch + 1)
    && Owners(current) !! Owners(overflow)
  }

  lemma FileEntry(s: seq<Entry>, ids: set<TimerId>, expiry: map<TimerId, nat>, epoch: nat,
                  t: TimerId, due: nat)
    requires ListOk(s, ids, expiry, epoch)
    requires t in ids && t !in Owners(s) && Epoch(due) == epoch
    ensures ListOk(Inserted(s, Entry(t, Stored(due))), ids, expiry[t := due], epoch)
  {
    var e := Entry(t, Stored(due));
    InsertFacts(s, e);
    forall x | x in Inserted(s, e) ensures EntryOk(x, ids, expiry[t := due], epoch) {
      if x != e {
        assert x.owner in Owners(s);
      }
    }
  }

  lemma ListEntries(s: seq<Entry>, ids: set<TimerId>, expiry: map<TimerId, nat>, epoch: nat)
    requires ListOk(s, ids, expiry, epoch)
    ensures Sorted(s) && DistinctOwners(s) && forall e :: e in s ==> e.owner in ids && e.owner in expiry
  {
  }

  lemma RemoveEntry(s: seq<Entry>, ids: set<TimerId>, expiry: map<TimerId, nat>, epoch: nat, t: TimerId)
    requires ListOk(s, ids, expiry, epoch)
    ensures ListOk(Without(s, t), ids, expiry, epoch)
    ensures Owners(Without(s, t)) == Owners(s) - {t}
    ensures forall e :: e in Without(s, t) ==> e in s
    ensures Without(s, t) != [] ==> s != []
  {
    WithoutMembers(s, t);
    WithoutSorted(s, t);
    WithoutDistinct(s, t);
  }

  lemma ExpiryElsewhere(s: seq<Entry>, ids: set<TimerId>, expiry: map<TimerId, nat>, epoch: nat,
                        t: TimerId, due: nat)
    requires ListOk(s, ids, expiry, epoch) && t !in Owners(s)
    ensures ListOk(s, ids, expiry[t := due], epoch)
  {
    forall x | x in s ensures EntryOk(x, ids, expiry[t := due], epoch) {
      assert x.owner in Owners(s);
    }
  }

  lemma NotYetLate(s: seq<Entry>, expiry: map<TimerId, nat>, before: map<TimerId, nat>, t: TimerId, c: nat)
    requires t in expiry && expiry == before[t := expiry[t]] && c < expiry[t] + TICKS
    requires forall e :: e in s && e.owner != t ==> e.owner in before && c < before[e.owner] + TICKS
    ensures forall e :: e in s ==> e.owner in expiry && c < expiry[e.owner] + TICKS
  {
  }

  datatype ListState = Idle | Waiting(due: nat)

  /** What holds of a timer that was started at true time `start` and left alone since: its callbacks
      ran in turn, the k-th for the k-th due time and not before it, and the timer is waiting in
      exactly one place, a list or the command queue, for exactly the next due time. */
  ghost predicate OnSchedule(t: TimerId, start: nat, timer: Timer, fired: seq<Call>, sampled: nat,
                             list: ListState, pending: seq<Command>)
  {
    var k := |fired|;
    && start <= sampled
    && (forall i :: 0 <= i < k ==> fired[i].nominal == Nominal(start, timer.period, i + 1) <= fired[i].at)
    && (k > 0 ==> Nominal(start, timer.period, k) <= sampled)
    && if k == 0 || timer.autoReload then
         || (list == Waiting(Nominal(start, timer.period, k + 1)) && pending == [])
         || (k > 0 && list == Idle && pending == [Restart(t, Nominal(start, timer.period, k))])
       else k == 1 && list == Idle && pending == []
  }

  /** The daemon's own restart message. */
  function Restart(t: TimerId, time: nat): Command {
    Command(StartDontTrace, t, Stored(time), time)
  }

  /** Serving a due timer: it goes back on a list, back on the queue, or is done. */
  lemma ScheduleServed(t: TimerId, start: nat, timer: Timer, fired: seq<Call>, before: nat, sampled: nat,
                       due: nat, at: nat, pending: seq<Command>)
    requires OnSchedule(t, start, timer, fired, before, Waiting(due), pending)
    requires due <= sampled <= at
    ensures pending == []
    ensures timer.autoReload ==>
      && OnSchedule(t, start, timer, fired + [Call(t, due, at)], sampled, Waiting(due + timer.period), [])
      && OnSchedule(t, start, timer, fired + [Call(t, due, at)], sampled, Idle, [Restart(t, due)])
    ensures !timer.autoReload ==> OnSchedule(t, start, timer, fired + [Call(t, due, at)], sampled, Idle, [])
  {
    NominalNext(start, timer.period, |fired| + 1);
  }

  /** Handling the daemon's own restart message. */
  lemma ScheduleRestarted(t: TimerId, start: nat, timer: Timer, fired: seq<Call>, before: nat, sampled: nat,
                          m: Command)
    requires OnSchedule(t, start, timer, fired, before, Idle, [m])
    requires before <= sampled
    ensures timer.autoReload && m == Restart(t, m.sentAt)
    ensures OnSchedule(t, start, timer, fired, sampled, Waiting(m.sentAt + timer.period), [])
  {
    NominalNext(start, timer.period, |fired|);
  }

  /** Handling a user's start: the first callback is due one period after it. */
  lemma ScheduleBegins(t: TimerId, start: nat, timer: Timer, sampled: nat)
    requires start <= sampled
    ensures OnSchedule(t, start, timer, [], sampled, Waiting(start + timer.period), [])
  {
    NominalNext(start, timer.period, 0);
  }

  /** What the reload of an expired timer adds to the record: a restart when the next due time has passed
      too. */
  function ReloadRecord(r: Record, queue: seq<Command>, timer: Timer, t: TimerId, due: nat, sampled: nat): Record {
    if !timer.autoReload || sampled < due + timer.period then r
    else Restarted(r, queue, Restart(t, due))
  }

  lemma ReloadGrew(r: Record, queue: seq<Command>, timer: Timer, t: TimerId, due: nat, sampled: nat)
    ensures Grew(r, ReloadRecord(r, queue, timer, t, due, sampled))
  {
  }

  /** The daemon sends restarts for auto-reload timers only. */
  ghost predicate OwnReload(r: Record, timers: map<TimerId, Timer>) {
    && (forall m :: m in r.posted && !IsUser(m.kind) ==> m.timer in timers && timers[m.timer].autoReload)
    && (forall l :: l in r.lost ==> l.timer in timers && timers[l.timer].autoReload)
  }

  lemma OwnReloadAccept(r: Record, timers: map<TimerId, Timer>, c: Command, idle: set<nat>)
    requires OwnReload(r, timers) && (IsUser(c.kind) || (c.timer in timers && timers[c.timer].autoReload))
    ensures OwnReload(Accepted(r, c, idle), timers)
  {
  }

  lemma OwnReloadLoss(r: Record, timers: map<TimerId, Timer>, t: TimerId)
    requires OwnReload(r, timers) && t in timers && timers[t].autoReload
    ensures OwnReload(WithLoss(r, t), timers)
  {
  }

  lemma OwnReloadOn(r: Record, q: Record, timers: map<TimerId, Timer>)
    requires OwnReload(r, timers) && q.posted == r.posted && q.lost == r.lost
    ensures OwnReload(q, timers)
  {
  }

  lemma OwnReloadTimers(r: Record, timers: map<TimerId, Timer>, after: map<TimerId, Timer>)
    requires OwnReload(r, timers)
    requires forall t :: t in timers ==> t in after && after[t].autoReload == timers[t].autoReload
    ensures OwnReload(r, after)
  {
  }

  ghost predicate ServedAll(owners: set<TimerId>, timers: map<TimerId, Timer>, expiry: map<TimerId, nat>,
                            calls0: seq<Call>, requeues0: seq<Requeue>, calls: seq<Call>, requeues: seq<Requeue>)
  {
    && calls0 <= calls && requeues0 <= requeues
    && forall t :: t in owners ==>
      && t in timers && t in expiry && timers[t].period > 0
      && CallsOf(calls[|calls0|..], t) == ServedBySwitch(timers[t], expiry[t])
      && RequeuesOf(requeues[|requeues0|..], t) == RequeuedBySwitch(timers[t], expiry[t])
  }

  lemma ServedAllSame(owners: set<TimerId>, timers: map<TimerId, Timer>, before: map<TimerId, Timer>,
                      expiry: map<TimerId, nat>, calls0: seq<Call>, requeues0: seq<Requeue>, calls: seq<Call>,
                      requeues: seq<Requeue>)
    requires ServedAll(owners, timers, expiry, calls0, requeues0, calls, requeues)
    requires forall t :: t in owners ==> t in before && t in timers && before[t] == timers[t]
    ensures ServedAll(owners, before, expiry, calls0, requeues0, calls, requeues)
  {
  }

  /** What a round of the daemon's loop comes to: the lists were switched, the head was served, or the daemon went
      to sleep. */
  datatype Outcome = Switched | Served | Slept(ticks: Tick, indefinitely: bool)

  class Daemon {
    // The daemon's statics.
    var current: seq<Entry>
    var overflow: seq<Entry>
    var lastTime: Tick
    // The command queue and the timer structures.
    var queue: seq<Command>
    var timers: map<TimerId, Timer>
    // The tick counter: the kernel sees Stored(clock).
    var clock: nat
    // History: read only by specifications and by the assumption on time.
    var sampled: nat
    var expiry: map<TimerId, nat>
    var calls: seq<Call>
    var requeues: seq<Requeue>
    ghost var start: map<TimerId, nat>
    ghost var fired: map<TimerId, seq<Call>>
    ghost var record: Record

    /** The assumption on time: the daemon is never a whole wrap late.  `holds` are the moments by
        which the work in hand has to be finished. */
    predicate ClockAllowed(c: nat, holds: set<nat>)
      reads `current, `overflow, `sampled, `expiry, `queue
    {
      && (current != [] || overflow != [] ==> c < sampled + TICKS)
      && (forall e :: e in current ==> e.owner in expiry && c < expiry[e.owner] + TICKS)
      && (forall e :: e in overflow ==> e.owner in expiry && c < expiry[e.owner] + TICKS)
      && (forall m :: m in queue ==> IsStart(m.kind) ==> c < m.sentAt + TICKS)
      && (forall h :: h in holds ==> c < h)
    }

    ghost predicate Listed(t: TimerId)
      reads `current, `overflow
    {
      t in Owners(current) || t in Owners(overflow)
    }

    ghost predicate QueueOk()
      reads `queue, `timers, `clock
    {
      && |queue| <= QUEUE_LENGTH
      && (forall m :: m in queue ==>
            && m.timer in timers
            && m.sentAt <= clock
            && (IsStart(m.kind) ==> m.value == Stored(m.sentAt))
            && (m.kind == ChangePeriod ==> 0 < m.value))
    }

    /** `t` was started at true time start[t] and left alone since. */
    ghost predicate Tracked(t: TimerId)
      reads `current, `overflow, `start, `fired, `timers, `sampled, `queue, `expiry
      requires t in start
    {
      && t in fired && t in timers
      && (Listed(t) ==> t in expiry)
      && OnSchedule(t, start[t], timers[t], fired[t], sampled,
                    if Listed(t) then Waiting(expiry[t]) else Idle, Pending(queue, t))
    }

    /** The timers on a list or in the daemon's hands. */
    ghost function Claimed(busy: set<TimerId>): set<TimerId>
      reads `current, `overflow
    {
      Owners(current) + Owners(overflow) + busy
    }

    ghost predicate RecordOk(busy: set<TimerId>)
      reads `current, `overflow, `queue, `start, `fired, `calls, `record
    {
      && HistoryOk(record, queue, start, fired, calls)
      && IdleOk(record, queue, Claimed(busy)) && HaltedOk(record, queue, Claimed(busy), calls)
    }

    /** The invariant while the current list belongs to `epoch` and the timers in `busy` are in the
        daemon's hands. */
    ghost predicate Inv(epoch: nat, busy: set<TimerId>, holds: set<nat>)
      reads `current, `overflow, `timers, `expiry, `queue, `clock, `sampled, `start, `fired, `calls, `record
    {
      && ListsOk(current, overflow, timers.Keys, expiry, epoch)
      && QueueOk()
      && sampled <= clock
      && ClockAllowed(clock, holds)
      && (forall t :: t in timers ==> timers[t].period > 0)
      && (forall t :: t in start ==> t in fired && t in timers)
      && (forall t :: t in start && t !in busy ==> Tracked(t))
      && (forall c :: c in calls ==> c.nominal <= c.at)
      && RecordOk(busy) && OwnReload(record, timers)
    }

    ghost predicate Valid()
      reads this
    {
      Inv(Epoch(sampled), {}, {}) && lastTime == Stored(sampled) && record.taken == |record.handled|
    }

    constructor ()
      ensures Valid()
      ensures current == [] && overflow == [] && queue == [] && calls == []
      ensures record == Record([], 0, [], [], {})
    {
      current, overflow, queue := [], [], [];
      lastTime := 0;
      timers, clock, sampled := map[], 0, 0;
      expiry, calls, requeues, start, fired := map[], [], [], map[], map[];
      record := Record([], 0, [], [], {});
    }

    /** What the other tasks, the interrupts and the callbacks leave alone. */
    twostate predicate ListsKept()
      reads `current, `overflow, `lastTime, `sampled, `expiry, `requeues
    {
      && current == old(current) && overflow == old(overflow) && lastTime == old(lastTime)
      && sampled == old(sampled) && expiry == old(expiry) && requeues == old(requeues)
    }

    /** A timer outside `touched` that is still undisturbed has not been touched. */
    twostate predicate UndisturbedBut(touched: set<TimerId>)
      reads `start, `queue, `record
    {
      && (forall t :: t in start ==> t in old(start) && start[t] == old(start)[t])
      && (forall t :: t in start && t !in touched ==> Pending(queue, t) == Pending(old(queue), t))
      && Grew(old(record), record) && OwnOnly(old(record), record, touched)
    }

    twostate predicate OnlyMoreTimers()
      reads `timers
    {
      forall t :: t in old(timers) ==> t in timers && timers[t] == old(timers)[t]
    }

    twostate predicate Interfered()
      reads `current, `overflow, `lastTime, `sampled, `expiry, `requeues, `clock, `timers, `start, `queue, `record
    {
      && ListsKept()
      && old(clock) <= clock
      && OnlyMoreTimers()
      && UndisturbedBut({})
    }

    /** Other tasks, interrupts and callbacks run: time passes, timers are created, commands are
        sent.  Any command for a timer ends the undisturbed stretch that `start` records. */
    method Environment(ghost epoch: nat, ghost busy: set<TimerId>, holds: set<nat>)
      requires Inv(epoch, busy, holds)
      modifies this
      ensures Inv(epoch, busy, holds)
      ensures Interfered() && calls == old(calls) && fired == old(fired)
    {
      hide Inv, Grew, OwnOnly, Pending;
      GrewSame(record, {});
      var n: nat := *;
      while n > 0
        invariant Inv(epoch, busy, holds)
        invariant Interfered() && calls == old(calls) && fired == old(fired)
      {
        ghost var before := record;
        if * {
          TimePasses(epoch, busy, holds);
        } else if * {
          CreateTimer(epoch, busy, holds);
        } else {
          UserCommand(epoch, busy, holds);
          GrewOn(old(record), before, record);
        }
        n := n - 1;
      }
    }

    method TimePasses(ghost epoch: nat, ghost busy: set<TimerId>, holds: set<nat>)
      requires Inv(epoch, busy, holds)
      modifies `clock
      ensures Inv(epoch, busy, holds)
      ensures old(clock) <= clock
    {
      var c: nat :| clock <= c && ClockAllowed(c, holds);
      clock := c;
    }

    method CreateTimer(ghost epoch: nat, ghost busy: set<TimerId>, ghost holds: set<nat>)
      requires Inv(epoch, busy, holds)
      modifies `timers
      ensures Inv(epoch, busy, holds)
      ensures forall t :: t in old(timers) ==> t in timers && timers[t] == old(timers)[t]
    {
      hide HistoryOk, IdleOk, HaltedOk, OwnReload, OnSchedule, Claimed;
      var id: TimerId, period: Tick, autoReload: bool := *, *, *;
      if id !in timers && period > 0 {
        OwnReloadTimers(record, timers, timers[id := Timer(period, autoReload)]);
        timers := timers[id := Timer(period, autoReload)];
      }
    }

    /** The public timer API: post a command unless the queue is full.  A start carries the tick at which
        it was asked for; the sender may have waited for room since. */
    method UserCommand(ghost epoch: nat, ghost busy: set<TimerId>, ghost holds: set<nat>)
      requires Inv(epoch, busy, holds)
      modifies `queue, `start, `record
      ensures Inv(epoch, busy, holds)
      ensures Interfered()
    {
      hide OnSchedule, Tracked, HistoryOk, IdleOk, HaltedOk, OwnReload, Grew, OwnOnly, Pending;
      GrewSame(record, {});
      var kind: CommandKind, t: TimerId, value: Tick, sent: nat := *, *, *, *;
      if kind != StartDontTrace && t in timers && (kind == ChangePeriod ==> value > 0) && |queue| < QUEUE_LENGTH
        && sent <= clock < sent + TICKS {
        Post(epoch, busy, holds, Command(kind, t, if IsStart(kind) then Stored(sent) else value, sent));
      }
    }

    method Post(ghost epoch: nat, ghost busy: set<TimerId>, ghost holds: set<nat>, m: Command)
      requires Inv(epoch, busy, holds)
      requires |queue| < QUEUE_LENGTH && m.timer in timers && IsUser(m.kind) && m.sentAt <= clock < m.sentAt + TICKS
      requires IsStart(m.kind) ==> m.value == Stored(m.sentAt)
      requires m.kind == ChangePeriod ==> 0 < m.value
      modifies `queue, `start, `record
      ensures Inv(epoch, busy, holds)
      ensures queue == old(queue) + [m] && UndisturbedBut({})
      ensures start == old(start) - {m.timer}
      ensures record == Commanded(old(record), old(queue), Claimed(busy), m)
    {
      hide OnSchedule, Tracked, HistoryOk, IdleOk, HaltedOk, OwnReload, Grew, OwnOnly, ListsOk, Commanded, Pending;
      PendingAppendAll(queue, m);
      PostRecorded(epoch, busy, holds, m);
      CommandedGrew(record, queue, Claimed(busy), m);
      record := Commanded(record, queue, Claimed(busy), m);
      queue := queue + [m];
      start := start - {m.timer};
      assert QueueOk();
      assert ClockAllowed(clock, holds);
      StillTracked(busy);
    }

    lemma PostRecorded(epoch: nat, busy: set<TimerId>, holds: set<nat>, m: Command)
      requires Inv(epoch, busy, holds) && IsUser(m.kind)
      ensures var q := Commanded(record, queue, Claimed(busy), m);
              && HistoryOk(q, queue + [m], start - {m.timer}, fired, calls)
              && IdleOk(q, queue + [m], Claimed(busy)) && HaltedOk(q, queue + [m], Claimed(busy), calls)
              && OwnReload(q, timers)
    {
      hide Tracked, IdleOk, HaltedOk, OwnReload, ListsOk, Pending, LeftAlone, HandlingsOk;
      var q := Commanded(record, queue, Claimed(busy), m);
      HaltedAccept(record, queue, Claimed(busy), calls, m, q.idle);
      OwnReloadAccept(record, timers, m, q.idle);
      UserAccepted(record, queue, start, fired, calls, m, q.idle);
      IdleUser(record, queue, Claimed(busy), m, q.idle);
    }

    /** vListInsert on one of the two lists. */
    method FileOnCurrent(ghost epoch: nat, t: TimerId, due: nat, ghost busy: set<TimerId>, ghost holds: set<nat>)
      requires Inv(epoch, busy, holds)
      requires t in busy && t in timers && !Listed(t)
      requires Epoch(due) == epoch && clock < due + TICKS && clock < sampled + TICKS
      modifies `current, `expiry
      ensures Inv(epoch, busy, holds)
      ensures expiry == old(expiry)[t := due] && current == Inserted(old(current), Entry(t, Stored(due)))
      ensures Owners(current) == old(Owners(current)) + {t}
    {
      hide OnSchedule, Tracked, HistoryOk, IdleOk, HaltedOk, OwnReload, ListOk, Inserted, Pending;
      ListEntries(current, timers.Keys, expiry, epoch);
      ListEntries(overflow, timers.Keys, expiry, epoch + 1);
      var e := Entry(t, Stored(due));
      FileEntry(current, timers.Keys, expiry, epoch, t, due);
      ExpiryElsewhere(overflow, timers.Keys, expiry, epoch + 1, t, due);
      InsertFacts(current, e);
      expiry := expiry[t := due];
      current := Inserted(current, e);
      NotYetLate(current, expiry, old(expiry), t, clock);
      NotYetLate(overflow, expiry, old(expiry), t, clock);
      assert ClockAllowed(clock, holds);
      assert Claimed(busy) == old(Claimed(busy));
      StillTracked(busy);
    }

    method FileOnOverflow(ghost epoch: nat, t: TimerId, due: nat, ghost busy: set<TimerId>, ghost holds: set<nat>)
      requires Inv(epoch, busy, holds)
      requires t in busy && t in timers && !Listed(t)
      requires Epoch(due) == epoch + 1 && clock < due + TICKS && clock < sampled + TICKS
      modifies `overflow, `expiry
      ensures Inv(epoch, busy, holds)
      ensures expiry == old(expiry)[t := due] && overflow == Inserted(old(overflow), Entry(t, Stored(due)))
      ensures Owners(overflow) == old(Owners(overflow)) + {t}
    {
      hide OnSchedule, Tracked, HistoryOk, IdleOk, HaltedOk, OwnReload, ListOk, Inserted, Pending;
      ListEntries(current, timers.Keys, expiry, epoch);
      ListEntries(overflow, timers.Keys, expiry, epoch + 1);
      var e := Entry(t, Stored(due));
      FileEntry(overflow, timers.Keys, expiry, epoch + 1, t, due);
      ExpiryElsewhere(current, timers.Keys, expiry, epoch, t, due);
      InsertFacts(overflow, e);
      expiry := expiry[t := due];
      overflow := Inserted(overflow, e);
      NotYetLate(overflow, expiry, old(expiry), t, clock);
      NotYetLate(current, expiry, old(expiry), t, clock);
      assert ClockAllowed(clock, holds);
      assert Claimed(busy) == old(Claimed(busy));
      StillTracked(busy);
    }

    /** A timer keeps its schedule when nothing that concerns it changes. */
    twostate lemma StillTracked(busy: set<TimerId>)
      requires forall t :: t in start && t !in busy ==> t in old(start) && start[t] == old(start)[t] && old(Tracked(t))
      requires forall t :: t in start && t !in busy ==> t in fired && t in old(fired) && fired[t] == old(fired)[t]
      requires forall t :: t in start && t !in busy ==> t in timers && t in old(timers) && timers[t] == old(timers)[t]
      requires forall t :: t in start && t !in busy ==> Pending(queue, t) == old(Pending(queue, t))
      requires forall t :: t in start && t !in busy ==> Listed(t) == old(Listed(t))
      requires forall t :: t in old(expiry) && t !in busy ==> t in expiry && expiry[t] == old(expiry)[t]
      requires old(sampled) <= sampled
      ensures forall t :: t in start && t !in busy ==> Tracked(t)
    {
      forall t | t in start && t !in busy ensures Tracked(t) {
        assert old(Tracked(t));
      }
    }

    /** File a timer for `sent + period`, or find that this moment has passed.  `sent` is the true
        time that `commandTime` stands for. */
    method InsertTimerInActiveList(t: TimerId, nextExpiry: Tick, timeNow: Tick, commandTime: Tick,
                                   sent: nat, ghost busy: set<TimerId>, ghost holds: set<nat>)
      returns (processNow: bool)
      requires Inv(Epoch(sampled), busy, holds)
      requires t in busy && t in timers && !Listed(t)
      requires sent <= sampled < sent + TICKS && clock < sampled + TICKS
      requires timeNow == Stored(sampled) && commandTime == Stored(sent)
      requires nextExpiry == Stored(sent + timers[t].period)
      modifies `current, `overflow, `expiry
      ensures Inv(Epoch(sampled), busy, holds)
      ensures processNow <==> sent + timers[t].period <= sampled
      ensures processNow ==> current == old(current) && overflow == old(overflow) && expiry == old(expiry)
      ensures !processNow ==> expiry == old(expiry)[t := sent + timers[t].period] && Listed(t)
      ensures forall u :: u != t ==> (Listed(u) <==> old(Listed(u)))
      ensures !processNow ==>
        if Epoch(sent + timers[t].period) == Epoch(sampled)
        then current == Inserted(old(current), Entry(t, nextExpiry)) && overflow == old(overflow)
        else current == old(current) && overflow == Inserted(old(overflow), Entry(t, nextExpiry))
    {
      hide Inv, Inserted, Owners, Stored, Epoch, Minus;
      InvPeriod(Epoch(sampled), busy, holds, t);
      var due := sent + timers[t].period;
      PlacementIsTrueTime(sent, sampled, timers[t].period);
      processNow := false;
      if nextExpiry <= timeNow {
        if Minus(timeNow, commandTime) >= timers[t].period {
          processNow := true;
        } else {
          FileOnOverflow(Epoch(sampled), t, due, busy, holds);
        }
      } else {
        if timeNow < commandTime && nextExpiry >= commandTime {
          processNow := true;
        } else {
          FileOnCurrent(Epoch(sampled), t, due, busy, holds);
        }
      }
    }

    lemma InvPeriod(epoch: nat, busy: set<TimerId>, holds: set<nat>, t: TimerId)
      requires Inv(epoch, busy, holds) && t in timers
      ensures timers[t].period > 0 && sampled <= clock
    {
    }

    /** Post the daemon's own restart message; when the queue is full it is lost. */
    method SendRestart(t: TimerId, value: Tick, time: nat,
                       ghost epoch: nat, ghost busy: set<TimerId>, ghost holds: set<nat>)
      requires Inv(epoch, busy, holds)
      requires t in busy && t in timers && timers[t].autoReload
      requires time <= clock < time + TICKS && value == Stored(time)
      modifies `queue, `requeues, `start, `record
      ensures Inv(epoch, busy, holds)
      ensures requeues == old(requeues) + [Requeue(t, time)]
      ensures if |old(queue)| < 32 then queue == old(queue) + [Restart(t, time)] && start == old(start)
              else queue == old(queue) && start == old(start) - {t}
      ensures record == Restarted(old(record), old(queue), Restart(t, time))
      ensures UndisturbedBut({t})
      ensures t in start ==> Pending(queue, t) == old(Pending(queue, t)) + [Restart(t, time)]
    {
      hide Inv, Grew, OwnOnly, Pending;
      requeues := requeues + [Requeue(t, time)];
      if |queue| < QUEUE_LENGTH {
        AcceptRestart(t, value, time, epoch, busy, holds);
      } else {
        LoseRestart(t, value, time, epoch, busy, holds);
      }
    }

    method AcceptRestart(t: TimerId, value: Tick, time: nat,
                         ghost epoch: nat, ghost busy: set<TimerId>, ghost holds: set<nat>)
      requires Inv(epoch, busy, holds) && |queue| < QUEUE_LENGTH
      requires t in busy && t in timers && timers[t].autoReload
      requires time <= clock < time + TICKS && value == Stored(time)
      modifies `queue, `record
      ensures Inv(epoch, busy, holds)
      ensures queue == old(queue) + [Restart(t, time)] && record == Restarted(old(record), old(queue), Restart(t, time))
      ensures UndisturbedBut({t})
      ensures t in start ==> Pending(queue, t) == old(Pending(queue, t)) + [Restart(t, time)]
    {
      hide OnSchedule, Tracked, HistoryOk, IdleOk, HaltedOk, OwnReload, Grew, OwnOnly, ListsOk, Restarted, Pending;
      var m := Command(StartDontTrace, t, value, time);
      RestartRecorded(epoch, busy, holds, m);
      PendingAppendAll(queue, m);
      record := Restarted(record, queue, m);
      queue := queue + [m];
      assert QueueOk();
      assert ClockAllowed(clock, holds);
      StillTracked(busy);
    }

    method LoseRestart(t: TimerId, value: Tick, time: nat,
                       ghost epoch: nat, ghost busy: set<TimerId>, ghost holds: set<nat>)
      requires Inv(epoch, busy, holds) && |queue| >= QUEUE_LENGTH
      requires t in busy && t in timers && timers[t].autoReload && value == Stored(time)
      modifies `start, `record
      ensures Inv(epoch, busy, holds)
      ensures start == old(start) - {t} && record == Restarted(old(record), queue, Restart(t, time))
      ensures UndisturbedBut({t})
    {
      hide OnSchedule, Tracked, HistoryOk, IdleOk, HaltedOk, OwnReload, Grew, OwnOnly, ListsOk, Restarted, Pending;
      RestartRecorded(epoch, busy, holds, Restart(t, time));
      record := Restarted(record, queue, Restart(t, time));
      start := start - {t};
      StillTracked(busy);
    }

    lemma RestartRecorded(epoch: nat, busy: set<TimerId>, holds: set<nat>, m: Command)
      requires Inv(epoch, busy, holds) && !IsUser(m.kind) && m.timer in busy
      requires m.timer in timers && timers[m.timer].autoReload
      ensures var q := Restarted(record, queue, m);
              && Grew(record, q) && OwnOnly(record, q, {m.timer})
              && OwnReload(q, timers)
              && if |queue| < QUEUE_LENGTH then
                   && HistoryOk(q, queue + [m], start, fired, calls)
                   && IdleOk(q, queue + [m], Claimed(busy)) && HaltedOk(q, queue + [m], Claimed(busy), calls)
                 else
                   && HistoryOk(q, queue, start - {m.timer}, fired, calls)
                   && IdleOk(q, queue, Claimed(busy)) && HaltedOk(q, queue, Claimed(busy), calls)
    {
      hide Tracked, HistoryOk, IdleOk, HaltedOk, OwnReload, ListsOk, Pending;
      if |queue| < QUEUE_LENGTH {
        OwnAccepted(record, queue, start, fired, calls, m);
        IdleOwn(record, queue, Claimed(busy), m);
        RecordHandlings(epoch, busy, holds);
        HaltedAccept(record, queue, Claimed(busy), calls, m, record.idle);
        OwnReloadAccept(record, timers, m, record.idle);
        AcceptedGrew(record, m, record.idle);
      } else {
        OwnLost(record, queue, start, fired, calls, m.timer);
        IdleFewer(record, WithLoss(record, m.timer), queue, Claimed(busy), Claimed(busy));
        HaltedLost(record, queue, Claimed(busy), calls, m.timer);
        OwnReloadLoss(record, timers, m.timer);
      }
    }

    lemma RecordHandlings(epoch: nat, busy: set<TimerId>, holds: set<nat>)
      requires Inv(epoch, busy, holds)
      ensures HandlingsOk(record, |calls|)
    {
    }

    /** Run the callback of `t`, due at `nominal`. */
    method Callback(t: TimerId, nominal: nat, ghost epoch: nat, ghost busy: set<TimerId>, holds: set<nat>)
      requires Inv(epoch, busy, holds)
      requires t in busy && nominal <= clock < nominal + TICKS
      modifies this
      ensures Inv(epoch, busy, holds + {nominal + TICKS})
      ensures Interfered()
      ensures calls == old(calls) + [Call(t, nominal, old(clock))]
      ensures fired == old(fired)[t := (if t in old(fired) then old(fired)[t] else []) + [Call(t, nominal, old(clock))]]
    {
      hide Inv;
      RecordCall(t, nominal, epoch, busy, holds);
      Environment(epoch, busy, holds + {nominal + TICKS});
    }

    method RecordCall(t: TimerId, nominal: nat, ghost epoch: nat, ghost busy: set<TimerId>, ghost holds: set<nat>)
      requires Inv(epoch, busy, holds)
      requires t in busy && nominal <= clock < nominal + TICKS
      modifies `calls, `fired
      ensures Inv(epoch, busy, holds + {nominal + TICKS})
      ensures calls == old(calls) + [Call(t, nominal, clock)]
      ensures fired == old(fired)[t := (if t in old(fired) then old(fired)[t] else []) + [Call(t, nominal, clock)]]
    {
      hide OnSchedule, Tracked, HistoryOk, IdleOk, HaltedOk, OwnReload;
      CallRecorded(record, queue, start, fired, calls, Call(t, nominal, clock));
      RecordHandlings(epoch, busy, holds);
      HaltedCall(record, queue, Claimed(busy), calls, Call(t, nominal, clock));
      calls := calls + [Call(t, nominal, clock)];
      fired := fired[t := (if t in fired then fired[t] else []) + [Call(t, nominal, clock)]];
      StillTracked(busy);
    }

    /** uxListRemove on the head of the current list. */
    method TakeHead(ghost epoch: nat, ghost busy: set<TimerId>, ghost holds: set<nat>)
      returns (t: TimerId)
      requires Inv(epoch, busy, holds)
      requires current != []
      modifies `current
      ensures t == old(current)[0].owner && current == old(current)[1..]
      ensures Owners(current) == Owners(old(current)) - {t} && t in Owners(old(current))
      ensures !Listed(t)
      ensures Inv(epoch, busy + {t}, holds)
    {
      hide HistoryOk, IdleOk, HaltedOk, OwnReload, OnSchedule, Pending;
      t := current[0].owner;
      TailFacts(current);
      assert Claimed(busy) == Owners(current[1..]) + Owners(overflow) + (busy + {t});
      current := current[1..];
      assert forall e :: e in current ==> e in old(current);
      assert ListsOk(current, overflow, timers.Keys, expiry, epoch);
      assert ClockAllowed(clock, holds);
      StillTracked(busy + {t});
    }

    /** What serving a timer leaves alone: the timers in the daemon's hands. */
    twostate predicate HandsKept(busy: set<TimerId>)
      reads `start, `queue, `fired, `record
    {
      && Grew(old(record), record) && OwnNot(old(record), record, busy)
      && (forall t :: t in start ==> t in old(start) && start[t] == old(start)[t])
      && (forall t :: t in start && t in busy ==>
            && Pending(queue, t) == Pending(old(queue), t)
            && (t in old(fired) ==> t in fired && fired[t] == old(fired)[t]))
    }

    /** `t` has just been served at its due time and goes on from there. */
    ghost predicate JustRan(t: TimerId, due: nat)
      reads `start, `timers, `fired, `sampled, `queue
      requires t in timers
    {
      t in start ==>
        && t in fired
        && Pending(queue, t) == []
        && (if timers[t].autoReload then
              && OnSchedule(t, start[t], timers[t], fired[t], sampled, Waiting(due + timers[t].period), [])
              && OnSchedule(t, start[t], timers[t], fired[t], sampled, Idle, [Restart(t, due)])
            else OnSchedule(t, start[t], timers[t], fired[t], sampled, Idle, []))
    }

    lemma HeadDue(epoch: nat, busy: set<TimerId>, holds: set<nat>)
      requires Inv(epoch, busy, holds) && current != []
      ensures var e := current[0];
              && e.owner in Owners(current) && e.owner in timers && timers[e.owner].period > 0
              && e.owner in expiry && e.value == Stored(expiry[e.owner])
              && Epoch(expiry[e.owner]) == epoch && clock < expiry[e.owner] + TICKS
      ensures sampled <= clock
      ensures current[0].owner in start && current[0].owner !in busy ==> Tracked(current[0].owner)
    {
      assert current[0] in current;
    }

    lemma ListedDue(epoch: nat, busy: set<TimerId>, holds: set<nat>)
      requires Inv(epoch, busy, holds)
      ensures forall t :: t in Owners(current) ==> t in timers && t in expiry && timers[t].period > 0
    {
    }

    /** The first half of a round of the switching loop: take the head off and run its callback. */
    method FireHead(ghost epoch: nat, ghost busy: set<TimerId>, holds: set<nat>)
      returns (t: TimerId, due: nat)
      requires Inv(epoch, busy, holds)
      requires current != [] && Epoch(sampled) == epoch + 1
      requires forall u :: u in busy ==> !Listed(u)
      modifies this
      ensures t == old(current)[0].owner && t in old(expiry) && due == old(expiry)[t]
      ensures t in timers && timers[t].period > 0 && t !in busy
      ensures Inv(epoch, busy + {t}, holds)
      ensures current == old(current)[1..] && !Listed(t)
      ensures Owners(current) == Owners(old(current)) - {t} && t in Owners(old(current))
      ensures overflow == old(overflow) && lastTime == old(lastTime) && sampled == old(sampled)
      ensures expiry == old(expiry) && requeues == old(requeues)
      ensures OnlyMoreTimers() && UndisturbedBut({})
      ensures due < sampled <= old(clock) <= clock < due + TICKS
      ensures calls == old(calls) + [Call(t, due, old(clock))]
      ensures forall u :: u != t && u in old(fired) ==> u in fired && fired[u] == old(fired)[u]
      ensures Epoch(due) == epoch && Stored(due) == old(current)[0].value
      ensures JustRan(t, due)
    {
      hide Inv, Pending;
      HeadDue(epoch, busy, holds);
      due := expiry[current[0].owner];
      BeforeTheWrap(due, epoch, sampled);
      t := TakeHead(epoch, busy, holds);
      Callback(t, due, epoch, busy + {t}, holds);
      StillAllowed(epoch, busy + {t}, holds, due + TICKS);
      if t in start {
        JustServed(t, due, old(start)[t], timers[t], old(fired)[t], old(clock), old(Pending(queue, t)));
      }
    }

    lemma StillAllowed(epoch: nat, busy: set<TimerId>, holds: set<nat>, limit: nat)
      requires Inv(epoch, busy, holds + {limit})
      ensures clock < limit && Inv(epoch, busy, holds)
    {
    }

    lemma JustServed(t: TimerId, due: nat, begun: nat, timer: Timer, firedBefore: seq<Call>, at: nat,
                     pending: seq<Command>)
      requires t in start && t in timers && t in fired
      requires start[t] == begun && timers[t] == timer && fired[t] == firedBefore + [Call(t, due, at)]
      requires Pending(queue, t) == pending
      requires OnSchedule(t, begun, timer, firedBefore, sampled, Waiting(due), pending)
      requires due <= sampled <= at
      ensures JustRan(t, due)
    {
      ScheduleServed(t, begun, timer, firedBefore, sampled, sampled, due, at, pending);
    }

    lemma OutOfHands(epoch: nat, t: TimerId, busy: set<TimerId>, holds: set<nat>)
      requires Inv(epoch, busy + {t}, holds)
      requires t in start ==> Tracked(t)
      ensures Inv(epoch, busy, holds)
    {
    }

    method Refile(t: TimerId, due: nat, ghost epoch: nat, ghost busy: set<TimerId>, ghost holds: set<nat>)
      requires Inv(epoch, busy + {t}, holds)
      requires t in timers && timers[t].autoReload && t !in busy && !Listed(t) && JustRan(t, due)
      requires Epoch(due + timers[t].period) == epoch && clock < due + TICKS && due <= sampled
      modifies `current, `expiry
      ensures Inv(epoch, busy, holds)
      ensures current == Inserted(old(current), Entry(t, Stored(due + timers[t].period)))
      ensures Owners(current) == Owners(old(current)) + {t}
      ensures expiry == old(expiry)[t := due + timers[t].period]
    {
      hide Inv, OnSchedule, Pending, Inserted;
      FileOnCurrent(epoch, t, due + timers[t].period, busy + {t}, holds);
      if t in start { BackOnSchedule(t, Waiting(due + timers[t].period), []); }
      OutOfHands(epoch, t, busy, holds);
    }

    method SendAgain(t: TimerId, nextExpire: Tick, due: nat,
                     ghost epoch: nat, ghost busy: set<TimerId>, ghost holds: set<nat>)
      requires Inv(epoch, busy + {t}, holds)
      requires t in timers && timers[t].autoReload && t !in busy && !Listed(t) && JustRan(t, due)
      requires Stored(due) == nextExpire && due <= clock < due + TICKS
      modifies `queue, `requeues, `start, `record
      ensures Inv(epoch, busy, holds)
      ensures UndisturbedBut({t})
      ensures requeues == old(requeues) + [Requeue(t, due)]
      ensures RestartSent(record, |old(record).posted|, Restart(t, due))
      ensures queue == old(queue) + if |old(queue)| < QUEUE_LENGTH then [Restart(t, due)] else []
    {
      hide Inv, Grew, OwnOnly;
      SendRestart(t, nextExpire, due, epoch, busy + {t}, holds);
      if t in start { BackOnSchedule(t, Idle, [Restart(t, due)]); }
      OutOfHands(epoch, t, busy, holds);
    }

    /** The second half: an auto-reload timer goes back on the list, or back on the queue when its
        next due time lies beyond the wrap. */
    method ReloadInSwitch(t: TimerId, nextExpire: Tick, due: nat,
                          ghost epoch: nat, ghost busy: set<TimerId>, ghost holds: set<nat>)
      returns (ghost again: bool)
      requires Inv(epoch, busy + {t}, holds)
      requires t in timers && timers[t].period > 0 && t !in busy && !Listed(t) && JustRan(t, due)
      requires Epoch(due) == epoch && Stored(due) == nextExpire
      requires due <= clock < due + TICKS && due <= sampled
      modifies `current, `expiry, `queue, `requeues, `start, `record
      ensures Inv(epoch, busy, holds)
      ensures UndisturbedBut({t})
      ensures again <==> timers[t].autoReload && nextExpire + timers[t].period < TICKS
      ensures again ==>
        && current == Inserted(old(current), Entry(t, Stored(due + timers[t].period)))
        && Owners(current) == Owners(old(current)) + {t}
        && expiry == old(expiry)[t := due + timers[t].period]
        && requeues == old(requeues)
      ensures !again ==>
        && current == old(current)
        && expiry == old(expiry)
        && requeues == old(requeues) + (if timers[t].autoReload then [Requeue(t, due)] else [])
    {
      hide Inv, JustRan, Pending, Inserted;
      again := false;
      if timers[t].autoReload {
        var reloadTime := Plus(nextExpire, timers[t].period);
        ReloadTime(due, timers[t].period);
        if reloadTime > nextExpire {
          again := true;
          Refile(t, due, epoch, busy, holds);
        } else {
          SendAgain(t, nextExpire, due, epoch, busy, holds);
        }
      } else {
        Finished(t, due, epoch, busy, holds);
      }
    }

    /** A one-shot timer that has been served waits nowhere. */
    lemma Finished(t: TimerId, due: nat, epoch: nat, busy: set<TimerId>, holds: set<nat>)
      requires Inv(epoch, busy + {t}, holds)
      requires t in timers && !timers[t].autoReload && !Listed(t) && JustRan(t, due)
      ensures Inv(epoch, busy, holds)
    {
      if t in start { BackOnSchedule(t, Idle, []); }
    }

    lemma BackOnSchedule(t: TimerId, list: ListState, pending: seq<Command>)
      requires t in start && t in fired && t in timers && (Listed(t) ==> t in expiry)
      requires list == (if Listed(t) then Waiting(expiry[t]) else Idle)
      requires pending == Pending(queue, t)
      requires OnSchedule(t, start[t], timers[t], fired[t], sampled, list, pending)
      ensures Tracked(t)
    {
    }

    /** One round of the switching loop. */
    method ServeHead(ghost epoch: nat, ghost busy: set<TimerId>, holds: set<nat>)
      returns (ghost t: TimerId, ghost due: nat, ghost again: bool, ghost at: nat)
      requires Inv(epoch, busy, holds)
      requires current != [] && Epoch(sampled) == epoch + 1
      requires forall u :: u in busy ==> !Listed(u)
      modifies this
      ensures Inv(epoch, busy, holds)
      ensures t !in busy && t == old(current)[0].owner && t in old(Owners(current)) && t in timers
      ensures t in old(expiry) && due == old(expiry)[t] && Stored(due) == old(current)[0].value
      ensures overflow == old(overflow) && lastTime == old(lastTime) && sampled == old(sampled)
      ensures OnlyMoreTimers() && UndisturbedBut({t})
      ensures old(clock) <= clock < sampled + TICKS
      ensures forall u :: u != t && u in old(fired) ==> u in fired && fired[u] == old(fired)[u]
      ensures calls == old(calls) + [Call(t, due, at)]
      ensures Work(current) < Work(old(current))
      ensures again <==> timers[t].autoReload && Stored(due) + timers[t].period < TICKS
      ensures again ==>
        && Owners(current) == Owners(old(current))
        && expiry == old(expiry)[t := due + timers[t].period]
        && requeues == old(requeues)
      ensures !again ==>
        && Owners(current) == Owners(old(current)) - {t}
        && expiry == old(expiry)
        && requeues == old(requeues) + (if timers[t].autoReload then [Requeue(t, due)] else [])
    {
      hide Inv, JustRan, Pending, Work, Inserted;
      HeadDue(epoch, busy, holds);
      var nextExpire := current[0].value;
      at := clock;
      WorkHead(current);
      var t', due' := FireHead(epoch, busy, holds);
      t, due := t', due';
      ghost var rest := current;
      assert rest == old(current)[1..];
      again := ReloadInSwitch(t', nextExpire, due', epoch, busy, holds);
      WorkInserted(rest, Entry(t, Stored(due + timers[t].period)));
    }

    /** Every timer of the old list has had exactly the callbacks that were due before the wrap, and the daemon
        has sent exactly its restarts. */
    twostate predicate AllServed()
      reads `calls, `requeues
    {
      ServedAll(old(Owners(current)), old(timers), old(expiry), old(calls), old(requeues), calls, requeues)
    }

    /** The tick count has wrapped: serve whatever is still on the current list, as often as it is
        due before the wrap, and swap the lists. */
    method SwitchTimerLists(ghost epoch: nat, ghost busy: set<TimerId>, holds: set<nat>)
      requires Inv(epoch, busy, holds)
      requires (current == [] && overflow == []) || Epoch(sampled) == epoch + 1
      requires forall u :: u in busy ==> !Listed(u)
      modifies this
      ensures Inv(Epoch(sampled), busy, holds)
      ensures overflow == [] && current == old(overflow)
      ensures lastTime == old(lastTime) && sampled == old(sampled)
      ensures OnlyMoreTimers() && HandsKept(busy)
      ensures old(clock) <= clock && (clock == old(clock) || clock < sampled + TICKS)
      ensures AllServed()
    {
      hide Inv, Balanced, ServedBySwitch, RequeuedBySwitch, Pending, Work, CallsOf, RequeuesOf, Grew, OwnOnly, OwnNot;
      GrewSame(record, busy);
      ListedDue(epoch, busy, holds);
      ghost var listed, timers0, expiry0 := Owners(current), timers, expiry;
      ghost var calls0, requeues0 := |calls|, |requeues|;
      assert calls[calls0..] == [] && requeues[requeues0..] == [];
      forall t | t in listed
        ensures t in timers0 && t in expiry0 && Balanced(t, [], [], true, timers0[t], expiry0[t], expiry0[t])
      {
        BalancedFirst(t, timers0[t], expiry0[t]);
      }
      while current != []
        invariant Inv(epoch, busy, holds)
        invariant (current == [] && overflow == []) || Epoch(sampled) == epoch + 1
        invariant forall u :: u in busy ==> !Listed(u)
        invariant overflow == old(overflow) && lastTime == old(lastTime) && sampled == old(sampled)
        invariant OnlyMoreTimers() && HandsKept(busy)
        invariant old(clock) <= clock && (clock == old(clock) || clock < sampled + TICKS)
        invariant old(calls) <= calls && old(requeues) <= requeues
        invariant Owners(current) <= listed
        invariant forall t :: t in listed ==> t in timers0 && t in expiry0 && t in timers && t in expiry && timers[t] == timers0[t]
        invariant forall t :: t in listed ==>
          Balanced(t, calls[calls0..], requeues[requeues0..], t in Owners(current), timers[t], expiry[t], expiry0[t])
        decreases Work(current)
      {
        ghost var callsBefore, requeuesBefore, recordBefore := calls, requeues, record;
        ghost var ownersBefore, expiryBefore := Owners(current), expiry;
        ghost var t, due, again, at := ServeHead(epoch, busy, holds);
        OwnWider(recordBefore, record, {t}, busy);
        GrewOn(old(record), recordBefore, record);
        ghost var more := if !again && timers[t].autoReload then [Requeue(t, due)] else [];
        assert calls == callsBefore + [Call(t, due, at)] && requeues == requeuesBefore + more;
        SinceAppend(callsBefore, calls0, [Call(t, due, at)]);
        SinceAppend(requeuesBefore, requeues0, more);
        forall u | u in listed
          ensures Balanced(u, calls[calls0..], requeues[requeues0..], u in Owners(current), timers[u], expiry[u], expiry0[u])
        {
          BalancedStep(u, callsBefore[calls0..], requeuesBefore[requeues0..], u in ownersBefore, timers0[u],
                       expiryBefore[u], expiry0[u], t, due, at, again, more, u in Owners(current), expiry[u]);
        }
      }
      forall t | t in listed
        ensures CallsOf(calls[calls0..], t) == ServedBySwitch(timers0[t], expiry0[t])
        ensures RequeuesOf(requeues[requeues0..], t) == RequeuedBySwitch(timers0[t], expiry0[t])
      {
        BalancedDone(t, calls[calls0..], requeues[requeues0..], timers0[t], expiry[t], expiry0[t]);
      }
      SwapLists(epoch, busy, holds);
    }

    method SwapLists(ghost epoch: nat, ghost busy: set<TimerId>, ghost holds: set<nat>)
      requires Inv(epoch, busy, holds)
      requires current == [] && (overflow == [] || Epoch(sampled) == epoch + 1)
      modifies `current, `overflow
      ensures Inv(Epoch(sampled), busy, holds)
      ensures current == old(overflow) && overflow == []
    {
      current, overflow := overflow, current;
      assert ListsOk(current, overflow, timers.Keys, expiry, Epoch(sampled));
      assert ClockAllowed(clock, holds);
      StillTracked(busy);
    }

    /** Read the tick count; if it has wrapped since the last reading, switch the lists. */
    method SampleTimeNow(ghost busy: set<TimerId>, holds: set<nat>) returns (timeNow: Tick, switched: bool)
      requires Inv(Epoch(sampled), busy, holds) && lastTime == Stored(sampled)
      requires forall u :: u in busy ==> !Listed(u)
      modifies this
      ensures Inv(Epoch(sampled), busy, holds) && lastTime == Stored(sampled) && timeNow == lastTime
      ensures sampled == old(clock) && clock < sampled + TICKS
      ensures OnlyMoreTimers() && HandsKept(busy)
      ensures forall u :: u in busy ==> !Listed(u)
      ensures !switched ==>
        && clock == old(clock) && current == old(current) && overflow == old(overflow) && expiry == old(expiry)
        && queue == old(queue) && calls == old(calls)
      ensures switched <==> Stored(old(clock)) < Stored(old(sampled))
      ensures switched ==> overflow == [] && current == old(overflow)
      ensures old(calls) <= calls && (switched ==> AllServed())
    {
      hide Inv, Pending, ServedBySwitch, RequeuedBySwitch, CallsOf, RequeuesOf;
      timeNow := Stored(clock);
      ghost var last := sampled;
      MarkSample(busy, holds);
      if timeNow < lastTime {
        SwitchTimerLists(Epoch(last), busy, holds);
        switched := true;
      } else {
        switched := false;
      }
      lastTime := timeNow;
    }

    /** The assumption on time makes a wrap visible whenever a list is in use. */
    method MarkSample(ghost busy: set<TimerId>, ghost holds: set<nat>)
      requires Inv(Epoch(sampled), busy, holds)
      modifies `sampled
      ensures sampled == clock
      ensures Inv(Epoch(old(sampled)), busy, holds)
      ensures Stored(old(sampled)) <= Stored(clock) ==> Inv(Epoch(sampled), busy, holds)
      ensures Stored(clock) < Stored(old(sampled)) ==>
        (current == [] && overflow == []) || Epoch(sampled) == Epoch(old(sampled)) + 1
    {
      hide OnSchedule, Tracked, HistoryOk, IdleOk, HaltedOk, OwnReload;
      if current != [] || overflow != [] {
        WrapIsVisible(sampled, clock);
      }
      sampled := clock;
      StillTracked(busy);
    }

    /** The reload of an expired timer: on a list for its next due time, or, when that has passed
        as well, back on the queue. */
    method ReloadExpired(t: TimerId, nextExpire: Tick, timeNow: Tick, due: nat)
      requires Inv(Epoch(sampled), {t}, {})
      requires t in timers && timers[t].period > 0 && !Listed(t)
      requires due <= sampled <= clock < due + TICKS && clock < sampled + TICKS
      requires nextExpire == Stored(due) && timeNow == Stored(sampled)
      modifies `current, `overflow, `expiry, `queue, `requeues, `start, `record
      ensures Inv(Epoch(sampled), {t}, {})
      ensures forall u :: u in start ==> u in old(start) && start[u] == old(start)[u]
      ensures forall u :: u != t ==> (Listed(u) <==> old(Listed(u)))
      ensures record == ReloadRecord(old(record), old(queue), timers[t], t, due, sampled)
      ensures if timers[t].autoReload && sampled < due + timers[t].period then
                && Listed(t) && expiry == old(expiry)[t := due + timers[t].period]
                && queue == old(queue) && requeues == old(requeues)
              else if timers[t].autoReload then
                && !Listed(t) && expiry == old(expiry) && requeues == old(requeues) + [Requeue(t, due)]
                && (t in start ==> Pending(queue, t) == old(Pending(queue, t)) + [Restart(t, due)])
              else !Listed(t) && expiry == old(expiry) && queue == old(queue) && requeues == old(requeues)
    {
      hide Inv, Pending, Inserted, Place;
      if timers[t].autoReload {
        PlusStored(due, timers[t].period);
        var processNow := InsertTimerInActiveList(t, Plus(nextExpire, timers[t].period), timeNow, nextExpire, due, {t}, {});
        if processNow {
          SendRestart(t, nextExpire, due, Epoch(sampled), {t}, {});
        }
      }
    }

    /** The head of the current list has expired: reload it and run its callback.  Time may have passed since
        the sample. */
    method ProcessExpiredTimer(nextExpire: Tick, timeNow: Tick) returns (ghost t: TimerId, ghost due: nat)
      requires Valid()
      requires current != [] && nextExpire == current[0].value
      requires nextExpire <= timeNow == lastTime
      modifies this
      ensures Valid()
      ensures sampled == old(sampled)
      ensures t == old(current)[0].owner && t in old(expiry) && due == old(expiry)[t] && t in timers
      ensures due <= sampled && calls == old(calls) + [Call(t, due, old(clock))]
      ensures if timers[t].autoReload && sampled < due + timers[t].period then
                Listed(t) && expiry == old(expiry)[t := due + timers[t].period] && requeues == old(requeues)
              else
                && !Listed(t) && expiry == old(expiry)
                && requeues == old(requeues) + (if timers[t].autoReload then [Requeue(t, due)] else [])
      ensures OnlyMoreTimers()
      ensures forall u :: u != t ==> (Listed(u) <==> old(Listed(u)))
      ensures Grew(ReloadRecord(old(record), old(queue), timers[t], t, due, sampled), record) && Grew(old(record), record)
    {
      hide Inv, Pending, Inserted, Place, OnSchedule, Grew, OwnOnly;
      HeadDue(Epoch(sampled), {}, {});
      var nominal := expiry[current[0].owner];
      SameEpochOrder(nominal, sampled);
      var timer := TakeHead(Epoch(sampled), {}, {});
      t, due := timer, nominal;
      assert {} + {t} == {t};
      ghost var pending := Pending(queue, t);
      ReloadExpired(timer, nextExpire, timeNow, nominal);
      ReloadGrew(old(record), old(queue), timers[t], t, due, sampled);
      ghost var reloaded := record;
      RunExpired(timer, nominal, pending);
      GrewOn(old(record), reloaded, record);
      GrewCounts(old(record), record);
    }

    /** The callback of a timer that has just been reloaded. */
    method RunExpired(t: TimerId, due: nat, ghost pending: seq<Command>)
      requires Inv(Epoch(sampled), {t}, {})
      requires t in timers && due <= sampled <= clock < due + TICKS
      requires t in start ==>
        && t in fired
        && OnSchedule(t, start[t], timers[t], fired[t], sampled, Waiting(due), pending)
        && Pending(queue, t) == pending + (if timers[t].autoReload && !Listed(t) then [Restart(t, due)] else [])
      requires Listed(t) ==> t in expiry && expiry[t] == due + timers[t].period && timers[t].autoReload
      modifies this
      ensures Inv(Epoch(sampled), {}, {})
      ensures ListsKept() && OnlyMoreTimers() && Grew(old(record), record)
      ensures record.taken == old(record).taken && record.handled == old(record).handled
      ensures calls == old(calls) + [Call(t, due, old(clock))]
    {
      hide Inv, Pending, OnSchedule, OwnOnly;
      Callback(t, due, Epoch(sampled), {t}, {});
      StillAllowed(Epoch(sampled), {t}, {}, due + TICKS);
      if t in start {
        Reloaded(t, due, old(fired)[t], old(clock), pending);
      }
      assert {} + {t} == {t};
      OutOfHands(Epoch(sampled), t, {}, {});
    }

    lemma Reloaded(t: TimerId, due: nat, firedBefore: seq<Call>, at: nat, pending: seq<Command>)
      requires t in start && t in timers && t in fired && fired[t] == firedBefore + [Call(t, due, at)]
      requires OnSchedule(t, start[t], timers[t], firedBefore, sampled, Waiting(due), pending)
      requires due <= sampled <= at
      requires Listed(t) ==> t in expiry && expiry[t] == due + timers[t].period && timers[t].autoReload
      requires Pending(queue, t) == pending + (if timers[t].autoReload && !Listed(t) then [Restart(t, due)] else [])
      ensures Tracked(t)
    {
      ScheduleServed(t, start[t], timers[t], firedBefore, sampled, sampled, due, at, pending);
    }

    /** The word that is returned stands for the earliest expiry of all active timers, if one lies in the epoch
        of the last sample, and otherwise for the next wrap of the tick count. */
    method GetNextExpireTime() returns (nextExpire: Tick, listWasEmpty: bool)
      requires Valid()
      ensures listWasEmpty <==> current == []
      ensures nextExpire == if current == [] then 0 else current[0].value
      ensures listWasEmpty <==> forall t :: Listed(t) ==> t in expiry && Epoch(expiry[t]) == Epoch(sampled) + 1
      ensures listWasEmpty ==> nextExpire == Stored((Epoch(sampled) + 1) * TICKS)
      ensures !listWasEmpty ==>
        exists t :: Listed(t) && t in expiry && nextExpire == Stored(expiry[t]) && Earliest(expiry[t])
    {
      hide Inv;
      listWasEmpty := current == [];
      nextExpire := if current == [] then 0 else current[0].value;
      EarliestListed();
    }

    ghost predicate Earliest(due: nat)
      reads `current, `overflow, `expiry
    {
      forall u :: Listed(u) ==> u in expiry && due <= expiry[u]
    }

    lemma EarliestListed()
      requires Valid()
      ensures current == [] <==> forall t :: Listed(t) ==> t in expiry && Epoch(expiry[t]) == Epoch(sampled) + 1
      ensures current != [] ==>
        var t := current[0].owner;
        Listed(t) && t in expiry && current[0].value == Stored(expiry[t]) && Earliest(expiry[t])
    {
      hide Inv;
      forall t | Listed(t)
        ensures t in expiry && (t !in Owners(current) ==> Epoch(expiry[t]) == Epoch(sampled) + 1)
      {
        EntryDue(t);
      }
      if current != [] {
        var t := current[0].owner;
        assert current[0] in current;
        HeadExpiry();
        EntryDue(t);
        forall u | Listed(u) ensures u in expiry && expiry[t] <= expiry[u] {
          EntryDue(u);
          StoredParts(expiry[t]);
          StoredParts(expiry[u]);
        }
      }
    }

    lemma HeadExpiry()
      requires Valid() && current != []
      ensures current[0].owner in expiry && current[0].value == Stored(expiry[current[0].owner])
    {
      assert current[0] in current;
    }

    /** The daemon may go to sleep for `ticks`: no timer on a list expires earlier, it sleeps without
        limit only when no timer is active, and every undisturbed timer with nothing queued has had
        exactly the callbacks that are due. */
    ghost predicate MayBlock(ticks: Tick, indefinitely: bool)
      reads this
    {
      && clock == sampled
      && (indefinitely <==> current == [] && overflow == [])
      && (!indefinitely ==> forall t :: Listed(t) ==> t in expiry && clock + ticks <= expiry[t])
      && (forall t :: Listed(t) ==> t in expiry && clock < expiry[t])
      && (current != [] ==> current[0].owner in expiry && clock + ticks == expiry[current[0].owner])
      && (current == [] ==> Stored(clock + ticks) == 0)
      && (ticks > 0 <==> current != [] || Stored(clock) != 0)
      && (forall t :: LeftAlone(record, t) && Pending(queue, t) == [] ==> UpToDate(t))
    }

    /** Its callback has run exactly as often as it was due since the timer was started. */
    ghost predicate UpToDate(t: TimerId)
      reads `record, `timers, `calls, `clock
    {
      var begun, runs := BegunAt(record, t), RunsSince(record, calls, t);
      && t in timers && timers[t].period > 0 && begun <= clock
      && var due := (clock - begun) / timers[t].period;
         |runs| == if timers[t].autoReload || due == 0 then due else 1
    }

    /** A timer that was started and left alone since is on the schedule that begins with its start: its k-th
        callback ran for the k-th due time and not before it, and the timer waits in exactly one place for
        the next one. */
    lemma OnItsSchedule(t: TimerId)
      requires Valid() && LeftAlone(record, t)
      ensures t in start && t in timers && (Listed(t) ==> t in expiry)
      ensures start[t] == BegunAt(record, t) && t in fired && fired[t] == RunsSince(record, calls, t)
      ensures OnSchedule(t, BegunAt(record, t), timers[t], RunsSince(record, calls, t), sampled,
                         if Listed(t) then Waiting(expiry[t]) else Idle, Pending(queue, t))
    {
      hide OnSchedule, LeftAlone, IdleOk, HandlingsOk, ListsOk;
      assert Tracked(t);
    }

    lemma NothingMissed(t: TimerId)
      requires Valid() && clock == sampled && LeftAlone(record, t) && Pending(queue, t) == []
      requires forall u :: Listed(u) ==> u in expiry && clock < expiry[u]
      ensures UpToDate(t)
    {
      hide Inv, LeftAlone, RunsSince, BegunAt, OnSchedule, Pending;
      OnItsSchedule(t);
      var c, p, k := BegunAt(record, t), timers[t].period, |RunsSince(record, calls, t)|;
      PeriodPositive(t);
      if k == 0 || timers[t].autoReload {
        WaitingFor(t, c, p, k);
        CountDue(c, p, k, clock);
      } else {
        OnceOnly(t, c, p);
        DivPositive(clock - c, p);
      }
    }

    lemma WaitingFor(t: TimerId, c: nat, p: nat, k: nat)
      requires Valid() && t in timers && p == timers[t].period && k == |RunsSince(record, calls, t)|
      requires OnSchedule(t, c, timers[t], RunsSince(record, calls, t), sampled,
                          if Listed(t) && t in expiry then Waiting(expiry[t]) else Idle, [])
      requires k == 0 || timers[t].autoReload
      ensures Listed(t) && t in expiry && expiry[t] == Nominal(c, p, k + 1)
      ensures c <= sampled && Nominal(c, p, k) <= (if k == 0 then c else sampled)
    {
      hide Inv, RunsSince;
    }

    lemma OnceOnly(t: TimerId, c: nat, p: nat)
      requires Valid() && t in timers && p == timers[t].period && |RunsSince(record, calls, t)| > 0 && !timers[t].autoReload
      requires OnSchedule(t, c, timers[t], RunsSince(record, calls, t), sampled,
                          if Listed(t) && t in expiry then Waiting(expiry[t]) else Idle, [])
      ensures |RunsSince(record, calls, t)| == 1 && c + p <= sampled
    {
      hide Inv, RunsSince;
    }

    lemma PeriodPositive(t: TimerId)
      requires Valid() && t in timers
      ensures timers[t].period > 0 && sampled <= clock
    {
    }

    lemma EntryDue(t: TimerId)
      requires Valid() && Listed(t)
      ensures t in expiry
      ensures if t in Owners(current)
              then current != [] && Epoch(expiry[t]) == Epoch(sampled) && current[0].value <= Stored(expiry[t])
              else Epoch(expiry[t]) == Epoch(sampled) + 1
    {
      if t in Owners(current) {
        var e :| e in current && e.owner == t;
        var i :| 0 <= i < |current| && current[i] == e;
        assert current[0].value <= current[i].value;
      } else {
        var e :| e in overflow && e.owner == t;
      }
    }

    lemma DueLater(t: TimerId)
      requires Valid() && clock == sampled && Listed(t)
      requires current != [] ==> Stored(clock) < current[0].value
      ensures t in expiry && clock < expiry[t]
      ensures current != [] ==> clock + Minus(current[0].value, Stored(clock)) <= expiry[t]
      ensures current == [] ==> clock + Minus(0, Stored(clock)) <= expiry[t]
    {
      hide Inv;
      EntryDue(t);
      StoredParts(clock);
      StoredParts(expiry[t]);
    }

    lemma NothingDue()
      requires Valid() && clock == sampled
      requires current != [] ==> Stored(clock) < current[0].value
      ensures forall t :: Listed(t) ==>
        && t in expiry && clock < expiry[t]
        && clock + Minus(if current == [] then 0 else current[0].value, Stored(clock)) <= expiry[t]
      ensures current != [] ==>
        && current[0].owner in expiry
        && clock + Minus(current[0].value, Stored(clock)) == expiry[current[0].owner]
      ensures current == [] ==> Stored(clock + Minus(0, Stored(clock))) == 0
    {
      hide Inv;
      forall t | Listed(t)
        ensures t in expiry && clock < expiry[t]
        ensures clock + Minus(if current == [] then 0 else current[0].value, Stored(clock)) <= expiry[t]
      {
        DueLater(t);
      }
      StoredParts(clock);
      if current != [] {
        HeadDue(Epoch(sampled), {}, {});
        StoredParts(expiry[current[0].owner]);
      }
    }

    /** What a round has come to is decided by the sampled time, and the callbacks that have run are those of that
        outcome. */
    twostate predicate Progressed(outcome: Outcome)
      reads this
    {
      && old(clock) <= sampled <= clock && old(calls) <= calls
      && (outcome.Switched? <==> Stored(sampled) < Stored(old(sampled)))
      && (old(current) != [] ==> old(current)[0].owner in old(expiry))
      && (!outcome.Switched? ==>
            (outcome.Served? <==> old(current) != [] && old(expiry)[old(current)[0].owner] <= sampled))
      && match outcome
         case Switched => AllServed() && current == old(overflow) && overflow == []
         case Served => old(current) != [] && HeadServed()
         case Slept(_, _) => calls == old(calls) && current == old(current) && overflow == old(overflow) && expiry == old(expiry)
    }

    /** The callback of the old head ran, once and for its due time, and the timer is off the lists, or on one for one
        period later.  No other timer has come or gone. */
    twostate predicate HeadServed()
      reads this
      requires old(current) != []
    {
      var t := old(current)[0].owner;
      && t in old(expiry) && t in timers && |calls| == |old(calls)| + 1
      && var due, c := old(expiry)[t], calls[|old(calls)|];
         && c.timer == t && c.nominal == due <= c.at
         && (Listed(t) <==> timers[t].autoReload && sampled < due + timers[t].period)
         && expiry == (if Listed(t) then old(expiry)[t := due + timers[t].period] else old(expiry))
         && forall u :: u != t ==> (Listed(u) <==> old(Listed(u)))
    }

    /** Process the head of the current list if it has expired, otherwise go to sleep.  The time decides: a tick
        word that has gone back switches the lists; otherwise the head, which is the earliest timer, is served
        exactly if it is due. */
    method ProcessTimerOrBlockTask(nextExpire: Tick, listWasEmpty: bool)
      returns (outcome: Outcome)
      requires Valid()
      requires listWasEmpty <==> current == []
      requires nextExpire == if current == [] then 0 else current[0].value
      modifies this
      ensures Valid()
      ensures outcome.Slept? ==> MayBlock(outcome.ticks, outcome.indefinitely)
      ensures Grew(old(record), record)
      ensures Progressed(outcome)
    {
      hide Inv, Pending, Grew, OwnOnly, OwnNot, LeftAlone, ServedAll, MayBlock;
      ListedDue(Epoch(sampled), {}, {});
      if current != [] {
        HeadDue(Epoch(sampled), {}, {});
      }
      Environment(Epoch(sampled), {}, {});
      ghost var before, known := record, timers;
      var timeNow, switched := SampleTimeNow({}, {});
      GrewOn(old(record), before, record);
      if !switched {
        ghost var sample := record;
        outcome := ServeOrSleep(nextExpire, timeNow, listWasEmpty);
        GrewOn(old(record), sample, record);
      } else {
        outcome := Switched;
        ServedAllSame(old(Owners(current)), known, old(timers), old(expiry), old(calls), old(requeues), calls, requeues);
      }
      SampledAlready();
    }

    /** The decision when the lists have not been switched. */
    method ServeOrSleep(nextExpire: Tick, timeNow: Tick, listWasEmpty: bool) returns (outcome: Outcome)
      requires Valid() && clock == sampled && timeNow == lastTime
      requires listWasEmpty <==> current == []
      requires nextExpire == if current == [] then 0 else current[0].value
      modifies this
      ensures Valid() && sampled == old(sampled) && Grew(old(record), record) && old(calls) <= calls
      ensures old(current) != [] ==> old(current)[0].owner in old(expiry)
      ensures outcome.Served? <==> old(current) != [] && old(expiry)[old(current)[0].owner] <= sampled
      ensures outcome.Served? ==> HeadServed()
      ensures !outcome.Served? ==> outcome.Slept? && MayBlock(outcome.ticks, outcome.indefinitely) && unchanged(this)
    {
      hide Inv, Pending, Grew, OwnOnly, OwnNot, LeftAlone, MayBlock;
      if !listWasEmpty && nextExpire <= timeNow {
        Environment(Epoch(sampled), {}, {});
        ghost var seen := record;
        GrewCounts(old(record), record);
        var _, _ := ProcessExpiredTimer(nextExpire, timeNow);
        GrewOn(old(record), seen, record);
        outcome := Served;
      } else {
        GrewSame(record, {});
        outcome := GoToSleep(nextExpire, timeNow, listWasEmpty);
      }
    }

    /** Nothing is due: wait for the first expiry, for the next wrap, or without limit. */
    method GoToSleep(nextExpire: Tick, timeNow: Tick, listWasEmpty: bool) returns (outcome: Outcome)
      requires Valid() && clock == sampled && timeNow == Stored(sampled)
      requires listWasEmpty <==> current == []
      requires nextExpire == if current == [] then 0 else current[0].value
      requires current != [] ==> timeNow < nextExpire
      ensures outcome.Slept? && MayBlock(outcome.ticks, outcome.indefinitely)
      ensures current != [] ==> current[0].owner in expiry && sampled < expiry[current[0].owner]
    {
      hide Inv, Pending, LeftAlone;
      var isEmpty := listWasEmpty;
      if listWasEmpty {
        isEmpty := overflow == [];
      }
      outcome := Slept(Minus(nextExpire, timeNow), isEmpty);
      NothingDue();
      forall t | LeftAlone(record, t) && Pending(queue, t) == [] ensures UpToDate(t) {
        NothingMissed(t);
      }
    }

    lemma SampledAlready()
      requires Valid()
      ensures sampled <= clock
    {
    }

    /** The true time by which a start command has to be handled. */
    function Deadline(m: Command): set<nat> {
      if IsStart(m.kind) then {m.sentAt + TICKS} else {}
    }

    /** `t` is in the daemon's hands and due next at `due`. */
    ghost predicate Ready(t: TimerId, due: nat)
      reads `start, `timers, `fired, `sampled, `queue
      requires t in timers
    {
      t in start ==>
        && t in fired
        && Pending(queue, t) == []
        && OnSchedule(t, start[t], timers[t], fired[t], sampled, Waiting(due), [])
    }

    /** xQueueReceive on the command queue.  An undisturbed timer has no other message queued than
        the daemon's own, and is then on no list. */
    method TakeMessage() returns (m: Command)
      requires Valid() && queue != []
      modifies `queue, `record
      ensures m == old(queue)[0] && queue == old(queue)[1..]
      ensures record == old(record).(taken := old(record).taken + 1)
      ensures old(record).taken < |record.posted| && record.posted[old(record).taken] == m
      ensures NothingElse(record, old(record).taken)
      ensures m.timer in timers && m.sentAt <= clock
      ensures IsStart(m.kind) ==> m.value == Stored(m.sentAt)
      ensures m.kind == ChangePeriod ==> m.value > 0
      ensures Inv(Epoch(sampled), {m.timer}, Deadline(m))
      ensures m.timer in start ==>
        && m.kind == StartDontTrace && m.timer in fired && Pending(queue, m.timer) == [] && !Listed(m.timer)
        && OnSchedule(m.timer, start[m.timer], timers[m.timer], fired[m.timer], sampled, Idle, [m])
    {
      hide OnSchedule, Tracked, HistoryOk, IdleOk, HaltedOk, OwnReload, ListsOk, Pending, NothingElse;
      m := queue[0];
      assert m in queue;
      HeadMessage();
      PendingElsewhere(queue);
      TakeRecorded();
      record := record.(taken := record.taken + 1);
      queue := queue[1..];
      assert QueueOk() && ClockAllowed(clock, Deadline(m));
      StillTracked({m.timer});
    }

    lemma TakeRecorded()
      requires Valid() && queue != []
      ensures var q := record.(taken := record.taken + 1);
              && record.taken < |record.posted| && record.posted[record.taken] == queue[0]
              && HistoryOk(q, queue[1..], start, fired, calls)
              && IdleOk(q, queue[1..], Claimed({queue[0].timer})) && HaltedOk(q, queue[1..], Claimed({queue[0].timer}), calls)
              && OwnReload(q, timers)
              && NothingElse(q, record.taken)
    {
      hide Tracked, IdleOk, HaltedOk, OwnReload, ListsOk, Pending, LeftAlone, HandlingsOk;
      Taking(record, queue, start, fired, calls);
      IdleTake(record, queue, Claimed({}));
      HaltedTake(record, queue, Claimed({}), calls);
      OwnReloadOn(record, record.(taken := record.taken + 1), timers);
      assert Claimed({}) + {queue[0].timer} == Claimed({queue[0].timer});
      assert queue[1..] == record.posted[record.taken + 1..];
      NothingBehind(record.posted, record.taken + 1, queue[0].timer);
    }

    lemma HeadMessage()
      requires Valid() && queue != []
      ensures var m := queue[0];
              m.timer in start ==>
                && m.kind == StartDontTrace && m.timer in fired && m.timer in timers
                && Pending(queue[1..], m.timer) == [] && !Listed(m.timer)
                && OnSchedule(m.timer, start[m.timer], timers[m.timer], fired[m.timer], sampled, Idle, [m])
    {
      hide OnSchedule;
      var m := queue[0];
      if m.timer in start {
        assert Tracked(m.timer);
        FirstPending(queue);
        OnlyRestartPending(m.timer, start[m.timer], timers[m.timer], fired[m.timer], sampled,
                           if Listed(m.timer) then Waiting(expiry[m.timer]) else Idle, Pending(queue, m.timer));
        assert Pending(queue, m.timer) == [m];
      }
    }

    /** uxListRemove on the timer, if it is on a list. */
    method RemoveFromList(t: TimerId, ghost holds: set<nat>)
      requires Inv(Epoch(sampled), {t}, holds)
      modifies `current, `overflow
      ensures Inv(Epoch(sampled), {t}, holds)
      ensures !Listed(t)
      ensures current == Without(old(current), t) && overflow == Without(old(overflow), t)
    {
      hide OnSchedule, Tracked, Without, HistoryOk, IdleOk, HaltedOk, OwnReload;
      RemoveEntry(current, timers.Keys, expiry, Epoch(sampled), t);
      RemoveEntry(overflow, timers.Keys, expiry, Epoch(sampled) + 1, t);
      current := Without(current, t);
      overflow := Without(overflow, t);
      IdleFewer(record, record, queue, old(Claimed({t})), Claimed({t}));
      HaltedFewer(record, queue, old(Claimed({t})), Claimed({t}), calls);
      assert ClockAllowed(clock, holds);
      StillTracked({t});
    }

    /** The message in hand is handled at the sampled time.  If it makes its timer active and nothing is queued
        behind it, the timer counts as left alone from here on. */
    method MarkHandled(m: Command, ghost holds: set<nat>)
      requires Inv(Epoch(sampled), {m.timer}, holds)
      requires record.taken == |record.handled| + 1 && record.posted[|record.handled|] == m
      requires NothingElse(record, |record.handled|)
      requires m.timer in timers && m.sentAt <= sampled && (m.timer in start ==> !IsUser(m.kind)) && !Ends(m.kind)
      modifies `start, `fired, `record
      ensures Inv(Epoch(sampled), {m.timer}, holds)
      ensures record == Marked(old(record), sampled, |calls|)
      ensures IsUser(m.kind) && m.timer in start ==>
        Ready(m.timer, (if m.kind == ChangePeriod then sampled else m.sentAt) + timers[m.timer].period)
      ensures IsUser(m.kind) && m.timer in start ==> Begins(m.kind)
      ensures !IsUser(m.kind) ==> start == old(start) && fired == old(fired)
    {
      hide ClockAllowed, QueueOk, Tracked, HistoryOk, IdleOk, HaltedOk, OwnReload, ListsOk, OnSchedule, Pending, BeginsNow, NothingElse, Owners;
      ghost var begins := MarkRecorded(m, {m.timer}, holds);
      record := Marked(record, sampled, |calls|);
      if begins {
        var begun := if m.kind == ChangePeriod then sampled else m.sentAt;
        ScheduleBegins(m.timer, begun, timers[m.timer], sampled);
        start := start[m.timer := begun];
        fired := fired[m.timer := []];
        KeepTracked(m.timer);
      }
    }

    lemma MarkRecorded(m: Command, busy: set<TimerId>, holds: set<nat>) returns (begins: bool)
      requires Inv(Epoch(sampled), {m.timer}, holds) && busy <= {m.timer}
      requires Ends(m.kind) ==> busy == {} && !Listed(m.timer)
      requires record.taken == |record.handled| + 1 && record.posted[|record.handled|] == m
      requires NothingElse(record, |record.handled|)
      ensures begins <==> BeginsNow(record.posted, |record.handled|)
      ensures begins ==> IsUser(m.kind) && Begins(m.kind) && Pending(queue, m.timer) == []
      ensures var q := Marked(record, sampled, |calls|);
              && IdleOk(q, queue, Claimed(busy)) && HaltedOk(q, queue, Claimed(busy), calls) && OwnReload(q, timers)
              && if begins then
                   HistoryOk(q, queue, start[m.timer := if m.kind == ChangePeriod then sampled else m.sentAt],
                             fired[m.timer := []], calls)
                 else HistoryOk(q, queue, start, fired, calls)
    {
      hide Tracked, IdleOk, HaltedOk, OwnReload, ListsOk, Pending, LeftAlone, HandlingsOk;
      begins := BeginsNow(record.posted, |record.handled|);
      Handle(record, queue, start, fired, calls, sampled);
      IdleFewer(record, Marked(record, sampled, |calls|), queue, Claimed({m.timer}), Claimed(busy));
      HaltedMark(record, queue, Claimed({m.timer}), Claimed(busy), calls, sampled);
      OwnReloadOn(record, Marked(record, sampled, |calls|), timers);
      NothingBehind(record.posted, record.taken, m.timer);
    }

    /** A stop or a deletion is handled: its timer is on no list already. */
    method MarkEnded(m: Command, ghost holds: set<nat>)
      requires Inv(Epoch(sampled), {m.timer}, holds) && !Listed(m.timer)
      requires record.taken == |record.handled| + 1 && record.posted[|record.handled|] == m
      requires NothingElse(record, |record.handled|)
      requires m.timer !in start && Ends(m.kind)
      modifies `record
      ensures Inv(Epoch(sampled), {}, {})
      ensures record == Marked(old(record), sampled, |calls|)
    {
      hide Tracked, HistoryOk, IdleOk, HaltedOk, OwnReload, ListsOk, OnSchedule, Pending, BeginsNow, NothingElse, Owners;
      ghost var begins := MarkRecorded(m, {}, holds);
      record := Marked(record, sampled, |calls|);
      StillTracked({m.timer});
    }

    twostate lemma KeepTracked(t: TimerId)
      requires forall u :: u in old(start) && u != t ==> old(Tracked(u))
      requires t in start && start == old(start)[t := start[t]] && t in fired && fired == old(fired)[t := fired[t]]
      requires current == old(current) && overflow == old(overflow) && expiry == old(expiry)
      requires timers == old(timers) && queue == old(queue) && sampled == old(sampled)
      ensures forall u :: u in start && u != t ==> Tracked(u)
    {
      hide OnSchedule;
      StillTracked({t});
    }

    /** The start and reset commands, and the daemon's own restart. */
    method HandleStart(m: Command, timeNow: Tick)
      requires Inv(Epoch(sampled), {m.timer}, Deadline(m)) && IsStart(m.kind)
      requires m.timer in timers && !Listed(m.timer) && timers[m.timer].period > 0
      requires m.value == Stored(m.sentAt) && timeNow == Stored(sampled)
      requires m.sentAt <= sampled <= clock < sampled + TICKS && clock < m.sentAt + TICKS
      requires Ready(m.timer, m.sentAt + timers[m.timer].period)
      modifies this
      ensures Inv(Epoch(sampled), {}, {})
      ensures lastTime == old(lastTime) && sampled == old(sampled) && m.timer in timers
      ensures CommandHandled(m.timer, m.sentAt + timers[m.timer].period)
      ensures OnlyMoreTimers() && Grew(old(record), record)
      ensures !Listed(m.timer) && timers[m.timer].autoReload ==>
        RestartSent(record, |old(record).posted|, Restart(m.timer, m.sentAt + timers[m.timer].period))
      ensures old(calls) <= calls
    {
      hide Inv, Pending, OnSchedule, Inserted, Place;
      var t := m.timer;
      var due := m.sentAt + timers[t].period;
      PlusStored(m.sentAt, timers[t].period);
      var processNow := InsertTimerInActiveList(t, Plus(m.value, timers[t].period), timeNow, m.value, m.sentAt, {t}, Deadline(m));
      assert {} + {t} == {t};
      if processNow {
        ServeLate(t, due, Plus(m.value, timers[t].period), Deadline(m));
      } else {
        if t in start {
          BackOnSchedule(t, Waiting(due), []);
        }
        OutOfHands(Epoch(sampled), t, {}, Deadline(m));
        NoDeadline(Epoch(sampled), {}, Deadline(m));
      }
    }

    /** A timer whose expiry passed before its start was handled: run the callback now and, if it
        reloads, send the restart. */
    method ServeLate(t: TimerId, due: nat, value: Tick, holds: set<nat>)
      requires Inv(Epoch(sampled), {t}, holds)
      requires t in timers && timers[t].period > 0 && !Listed(t) && Ready(t, due)
      requires due <= sampled <= clock < due + TICKS && value == Stored(due)
      modifies this
      ensures Inv(Epoch(sampled), {}, {})
      ensures lastTime == old(lastTime) && sampled == old(sampled) && t in timers && timers[t] == old(timers)[t]
      ensures CommandHandled(t, due)
      ensures OnlyMoreTimers() && Grew(old(record), record)
      ensures timers[t].autoReload ==> RestartSent(record, |old(record).posted|, Restart(t, due))
      ensures old(calls) <= calls
    {
      hide Inv, Pending, OnSchedule;
      Callback(t, due, Epoch(sampled), {t}, holds);
      StillAllowed(Epoch(sampled), {t}, holds, due + TICKS);
      if t in start {
        JustServed(t, due, start[t], timers[t], old(fired)[t], old(clock), []);
      }
      NoDeadline(Epoch(sampled), {t}, holds);
      assert {} + {t} == {t};
      if timers[t].autoReload {
        SendAgain(t, value, due, Epoch(sampled), {}, {});
      } else {
        Finished(t, due, Epoch(sampled), {}, {});
      }
    }

    lemma NoDeadline(epoch: nat, busy: set<TimerId>, holds: set<nat>)
      requires Inv(epoch, busy, holds)
      ensures Inv(epoch, busy, {})
    {
    }

    /** What a command that starts `t` for `due` leads to: the timer is on a list for exactly that
        time, or that time has passed and its callback was the last to run. */
    ghost predicate CommandHandled(t: TimerId, due: nat)
      reads this
      requires t in timers
    {
      if sampled < due then Listed(t) && t in expiry && expiry[t] == due
      else
        && !Listed(t)
        && calls != [] && calls[|calls| - 1].timer == t && calls[|calls| - 1].nominal == due
        && (timers[t].autoReload ==> requeues != [] && requeues[|requeues| - 1] == Requeue(t, due))
    }

    /** The change-period command: the new period counts from the moment of handling. */
    method HandleChangePeriod(m: Command, timeNow: Tick)
      requires Inv(Epoch(sampled), {m.timer}, {})
      requires m.timer in timers && !Listed(m.timer) && m.timer !in start && m.value > 0
      requires timeNow == Stored(sampled) && m.sentAt <= sampled <= clock < sampled + TICKS
      requires m.kind == ChangePeriod && record.taken == |record.handled| + 1 && record.posted[|record.handled|] == m
      requires NothingElse(record, |record.handled|)
      modifies this
      ensures Inv(Epoch(sampled), {}, {})
      ensures lastTime == old(lastTime) && sampled == old(sampled) && calls == old(calls)
      ensures m.timer in timers && timers[m.timer] == old(timers)[m.timer].(period := m.value)
      ensures Listed(m.timer) && m.timer in expiry && expiry[m.timer] == sampled + m.value
      ensures record == Marked(old(record), sampled, |calls|)
    {
      hide Inv, Pending, OnSchedule, NothingElse;
      SetPeriod(m.timer, m.value);
      MarkHandled(m, {});
      StartFromNow(m.timer, timeNow);
    }

    method StartFromNow(t: TimerId, timeNow: Tick)
      requires Inv(Epoch(sampled), {t}, {})
      requires t in timers && timers[t].period > 0 && !Listed(t) && Ready(t, sampled + timers[t].period)
      requires timeNow == Stored(sampled) && sampled <= clock < sampled + TICKS
      modifies `current, `overflow, `expiry
      ensures Inv(Epoch(sampled), {}, {})
      ensures Listed(t) && t in expiry && expiry[t] == sampled + timers[t].period
    {
      hide Inv, Pending, OnSchedule, Inserted, Place;
      PlusStored(sampled, timers[t].period);
      var late := InsertTimerInActiveList(t, Plus(timeNow, timers[t].period), timeNow, timeNow, sampled, {t}, {});
      if t in start {
        BackOnSchedule(t, Waiting(expiry[t]), []);
      }
      assert {} + {t} == {t};
      OutOfHands(Epoch(sampled), t, {}, {});
    }

    method SetPeriod(t: TimerId, period: Tick)
      requires Inv(Epoch(sampled), {t}, {})
      requires t in timers && t !in start && period > 0
      modifies `timers
      ensures Inv(Epoch(sampled), {t}, {})
      ensures timers == old(timers)[t := Timer(period, old(timers)[t].autoReload)]
    {
      hide ClockAllowed, OnSchedule, HistoryOk, IdleOk, HaltedOk, OwnReload, Owners, Pending;
      OwnReloadTimers(record, timers, timers[t := Timer(period, timers[t].autoReload)]);
      timers := timers[t := Timer(period, timers[t].autoReload)];
      assert timers.Keys == old(timers.Keys);
      StillTracked({t});
    }

    /** `m` is in the daemon's hands: off the queue, its timer off both lists, the time sampled. */
    ghost predicate InHand(m: Command, timeNow: Tick)
      reads this
    {
      && Inv(Epoch(sampled), {m.timer}, Deadline(m))
      && lastTime == Stored(sampled) && timeNow == lastTime
      && m.timer in timers && timers[m.timer].period > 0 && !Listed(m.timer)
      && m.sentAt <= sampled <= clock < sampled + TICKS
      && (IsStart(m.kind) ==> m.value == Stored(m.sentAt) && clock < m.sentAt + TICKS)
      && (m.kind == ChangePeriod ==> m.value > 0)
      && (m.kind == StartDontTrace ==> Ready(m.timer, m.sentAt + timers[m.timer].period))
      && (m.timer in start ==> m.kind == StartDontTrace)
      && record.taken == |record.handled| + 1 && |record.handled| < |record.posted| && record.posted[|record.handled|] == m
      && NothingElse(record, |record.handled|)
    }

    /** `m` has been taken off the queue and its timer off both lists. */
    ghost predicate Taken(m: Command)
      reads this
    {
      && Inv(Epoch(sampled), {m.timer}, Deadline(m))
      && lastTime == Stored(sampled)
      && m.timer in timers && !Listed(m.timer) && m.sentAt <= clock
      && (IsStart(m.kind) ==> m.value == Stored(m.sentAt))
      && (m.kind == ChangePeriod ==> m.value > 0)
      && (m.timer in start ==>
            && m.kind == StartDontTrace && m.timer in fired && Pending(queue, m.timer) == []
            && OnSchedule(m.timer, start[m.timer], timers[m.timer], fired[m.timer], sampled, Idle, [m]))
      && record.taken == |record.handled| + 1 && |record.handled| < |record.posted| && record.posted[|record.handled|] == m
      && NothingElse(record, |record.handled|)
    }

    method FetchCommand() returns (m: Command, timeNow: Tick)
      requires Valid() && queue != []
      modifies this
      ensures m == old(queue)[0] && InHand(m, timeNow)
      ensures |old(record).handled| < |old(record).posted| && m == old(record).posted[|old(record).handled|]
      ensures OnlyMoreTimers() && Grew(old(record).(taken := old(record).taken + 1), record)
      ensures old(calls) <= calls
    {
      hide Inv, Pending, OnSchedule, Without, Grew, OwnOnly, OwnNot, NothingElse;
      m := TakeMessage();
      ghost var taken := record;
      Environment(Epoch(sampled), {m.timer}, Deadline(m));
      OwnWider(taken, record, {}, {m.timer});
      StillNothingElse(taken, record, |old(record).handled|);
      RemoveFromList(m.timer, Deadline(m));
      ghost var removed := record;
      timeNow := SampleInHand(m);
      GrewOn(taken, removed, record);
    }

    /** The time is sampled when the command is off the queue, so it is not before the command.  Others may
        run again before the sample is used. */
    method SampleInHand(m: Command) returns (timeNow: Tick)
      requires Taken(m)
      modifies this
      ensures InHand(m, timeNow)
      ensures OnlyMoreTimers() && Grew(old(record), record)
      ensures old(calls) <= calls
    {
      hide Inv, Pending, OnSchedule, Grew, OwnOnly, OwnNot, NothingElse;
      var t := m.timer;
      ghost var before := sampled;
      SampledBefore(t, m);
      var switched;
      timeNow, switched := SampleTimeNow({t}, Deadline(m));
      ghost var sample := record;
      StillNothingElse(old(record), sample, |old(record).handled|);
      OneMoreHold(Epoch(sampled), {t}, Deadline(m), sampled + TICKS);
      Environment(Epoch(sampled), {t}, Deadline(m) + {sampled + TICKS});
      StillAllowed(Epoch(sampled), {t}, Deadline(m), sampled + TICKS);
      OwnWider(sample, record, {}, {t});
      StillNothingElse(sample, record, |old(record).handled|);
      GrewOn(old(record), sample, record);
      HandsFacts(t, m);
      if t in start {
        ScheduleRestarted(t, start[t], timers[t], fired[t], before, sampled, m);
      }
    }

    lemma OneMoreHold(epoch: nat, busy: set<TimerId>, holds: set<nat>, limit: nat)
      requires Inv(epoch, busy, holds) && clock < limit
      ensures Inv(epoch, busy, holds + {limit})
    {
    }

    lemma SampledBefore(t: TimerId, m: Command)
      requires Inv(Epoch(sampled), {t}, Deadline(m))
      ensures sampled <= clock
    {
    }

    /** Receive one command and carry it out. */
    method ProcessCommand()
      requires Valid() && queue != []
      modifies this
      ensures Valid()
      ensures HandledNext(old(record), record, sampled) && old(calls) <= calls
      ensures var m := old(queue)[0];
              && m.timer in timers && m == old(record).posted[|old(record).handled|]
              && (m.kind != ChangePeriod ==> OnlyMoreTimers())
              && (IsStart(m.kind) ==> StartHandled(m))
              && (m.kind == ChangePeriod ==>
                    timers[m.timer].period == m.value && Listed(m.timer)
                    && m.timer in expiry && expiry[m.timer] == sampled + m.value)
              && (Ends(m.kind) ==> !Listed(m.timer) && (Halted(record, m.timer) <==> Pending(queue, m.timer) == []))
    {
      hide Inv, Pending, OnSchedule, CommandHandled, HandledNext, Grew, OwnOnly, NothingElse, RestartSent, Halted;
      var m, timeNow := FetchCommand();
      ghost var before := record;
      GrewSame(Marked(before, sampled, |calls|), {});
      ghost var count := |calls|;
      if m.kind == ChangePeriod {
        HandleChangePeriod(m, timeNow);
      } else if IsStart(m.kind) {
        MarkHandled(m, Deadline(m));
        ghost var marked := record;
        HandleStart(m, timeNow);
        GrewCounts(marked, record);
      } else {
        MarkEnded(m, Deadline(m));
      }
      HandledSteps(old(record), before, Marked(before, sampled, count), record, sampled, count);
      HandledCounts(old(record), record, sampled);
      if Ends(m.kind) {
        EndedRests(m);
      }
    }

    /** Right after a stop or a deletion, its timer rests exactly if nothing is queued for it. */
    lemma EndedRests(m: Command)
      requires Valid() && record.taken == |record.handled| > 0
      requires |record.handled| <= |record.posted| && record.posted[|record.handled| - 1] == m && Ends(m.kind)
      ensures Halted(record, m.timer) <==> Pending(queue, m.timer) == []
    {
      hide Inv, Pending;
      var i := |record.handled| - 1;
      QueueStarts();
      SeenBound(i);
      NothingBehind(record.posted, i + 1, m.timer);
      if Pending(queue, m.timer) == [] {
        LastUserIs(record.posted, m.timer, i);
      } else if Halted(record, m.timer) {
        StopHolds(m.timer);
      }
    }

    /** What has come of a start: the timer waits for one period after it, or has been served for that time
        already; then an auto-reload timer's restart is the last message sent. */
    ghost predicate StartHandled(m: Command)
      reads this
    {
      && m.timer in timers
      && CommandHandled(m.timer, m.sentAt + timers[m.timer].period)
      && (!Listed(m.timer) && timers[m.timer].autoReload ==>
            && |record.handled| > 0
            && RestartSent(record, record.handled[|record.handled| - 1].seen, Restart(m.timer, m.sentAt + timers[m.timer].period)))
    }

    lemma HandsFacts(t: TimerId, m: Command)
      requires Inv(Epoch(sampled), {t}, Deadline(m)) && t in timers
      ensures timers[t].period > 0 && sampled <= clock
      ensures IsStart(m.kind) ==> clock < m.sentAt + TICKS
    {
      if IsStart(m.kind) {
        assert m.sentAt + TICKS in Deadline(m);
      }
    }

    /** Empty the command queue.  Commands may keep coming, so at most `limit` are followed; fewer are handled only if
        the queue has run empty. */
    method ProcessReceivedCommands(limit: nat) returns (handled: nat)
      requires Valid()
      modifies this
      ensures Valid() && Extends(old(record), record) && old(calls) <= calls
      ensures handled <= limit && record.taken == old(record).taken + handled && (handled < limit ==> queue == [])
    {
      hide Inv, HandledNext, Extends, StartHandled, CommandHandled;
      ExtendsSame(record);
      handled := 0;
      while handled < limit && queue != []
        invariant Valid() && Extends(old(record), record) && old(calls) <= calls
        invariant handled <= limit && record.taken == old(record).taken + handled
        decreases limit - handled
      {
        ghost var before := record;
        ProcessCommand();
        GrewExtends(before, record);
        ExtendsOn(old(record), before, record);
        HandledTaken(before, record, sampled);
        handled := handled + 1;
      }
    }

    /** The first half of a round: serve a timer or sleep. */
    method TimerRound() returns (outcome: Outcome)
      requires Valid()
      modifies this
      ensures Valid() && Extends(old(record), record) && record.taken == old(record).taken
      ensures Progressed(outcome) && old(calls) <= calls
      ensures outcome.Served? ==> old(current != [] && current[0].owner in expiry && Earliest(expiry[current[0].owner]))
      ensures old(HeadOverdue()) ==> HeadCalled()
    {
      hide Inv, Extends, MayBlock, Grew, OwnOnly, ServedAll, Earliest, HeadCalled;
      EarliestListed();
      var nextExpire, listWasEmpty := GetNextExpireTime();
      outcome := ProcessTimerOrBlockTask(nextExpire, listWasEmpty);
      assert outcome.Slept? ==> MayBlock(outcome.ticks, outcome.indefinitely);
      ghost var slept := record;
      Environment(Epoch(sampled), {}, {});
      GrewOn(old(record), slept, record);
      GrewExtends(old(record), record);
      GrewCounts(old(record), record);
      if old(HeadOverdue()) {
        OverdueCalled(outcome);
      }
    }

    /** The earliest timer is due. */
    ghost predicate HeadOverdue()
      reads `current, `expiry, `clock
    {
      current != [] && current[0].owner in expiry && expiry[current[0].owner] <= clock
    }

    /** The callback of the old head has run for its due time. */
    twostate predicate HeadCalled()
      reads `calls
    {
      && old(current) != [] && old(current)[0].owner in old(expiry) && old(calls) <= calls
      && exists i :: |old(calls)| <= i < |calls| && calls[i].timer == old(current)[0].owner
                     && calls[i].nominal == old(expiry)[old(current)[0].owner]
    }

    twostate lemma OverdueCalled(outcome: Outcome)
      requires Progressed(outcome) && old(HeadOverdue())
      ensures HeadCalled()
    {
      if outcome.Switched? {
        assert old(current)[0] in old(current);
        FirstServed(calls[|old(calls)|..], old(current)[0].owner, old(timers)[old(current)[0].owner],
                    old(expiry)[old(current)[0].owner]);
      } else {
        assert calls[|old(calls)|].timer == old(current)[0].owner;
      }
    }

    /** Any finite stretch of the daemon's endless loop, in any company.  A timer that is overdue at the head of the
        list is served in the first round.  Each round handles at least one queued command, if there is one and any
        are followed, so that what is queued at the start is handled in as many rounds. */
    method TimerTask(rounds: nat, limit: nat)
      requires Valid()
      modifies this
      ensures Valid() && Extends(old(record), record) && old(calls) <= calls
      ensures limit > 0 ==> |old(record).posted| <= |record.handled| || old(record).taken + rounds <= |record.handled|
      ensures rounds > 0 && old(HeadOverdue()) ==> HeadCalled()
    {
      hide Inv, Extends, MayBlock, Grew, OwnOnly, Progressed;
      ExtendsSame(record);
      for round := 0 to rounds
        invariant Valid() && Extends(old(record), record) && old(calls) <= calls
        invariant limit > 0 ==> |old(record).posted| <= record.taken || old(record).taken + round <= record.taken
        invariant round == 0 ==> unchanged(this)
        invariant round > 0 && old(HeadOverdue()) ==> HeadCalled()
      {
        ghost var before := record;
        var _ := TimerRound();
        ExtendsOn(old(record), before, record);
        ghost var ready := record;
        var handled := ProcessReceivedCommands(limit);
        ExtendsOn(old(record), ready, record);
        QueueStarts();
        ExtendsCounts(old(record), record);
      }
      QueueStarts();
    }

    // ------------------------------------------------- When a command is obeyed

    /** Right after a start was handled, with no later user command for its timer and no restart lost since:
        the schedule from that start holds exactly if no restart of the daemon's own was queued behind it. */
    lemma StartHoldsIff(t: TimerId)
      requires Valid() && t in timers
      requires var i := LastUser(record.posted, t);
               && 0 <= i == |record.handled| - 1 && Begins(record.posted[i].kind) && NoneLost(record.lost, i, t)
               && record.handled[i].seen <= |record.posted|
      requires Listed(t) ==> t in expiry
      requires !Listed(t) && timers[t].autoReload ==>
        exists due :: RestartSent(record, record.handled[LastUser(record.posted, t)].seen, Restart(t, due))
      ensures var i := LastUser(record.posted, t);
              OnSchedule(t, BegunAt(record, t), timers[t], RunsSince(record, calls, t), sampled,
                         if Listed(t) then Waiting(expiry[t]) else Idle, Pending(queue, t))
              <==> NoneFor(record.posted, i + 1, record.handled[i].seen, t)
      ensures var i := LastUser(record.posted, t);
              !NoneFor(record.posted, i + 1, record.handled[i].seen, t) ==> RestartQueued(t)
    {
      hide Inv, LeftAlone, OnSchedule, Pending, BegunAt, RunsSince, RestartSent;
      var i := LastUser(record.posted, t);
      if NoneFor(record.posted, i + 1, record.handled[i].seen, t) {
        LeftAloneIf(record, t);
        OnItsSchedule(t);
      } else {
        var j :| i + 1 <= j < record.handled[i].seen && record.posted[j].timer == t;
        RestartBehind(t, j);
        BehindIsQueued(t, j);
      }
    }

    /** A timer that was stopped and left alone since rests: it is on no list, nothing is queued for it, and its
        callback has not run since the stop was handled. */
    lemma StopHolds(t: TimerId)
      requires Valid() && Halted(record, t)
      ensures !Listed(t) && Pending(queue, t) == [] && RunsSince(record, calls, t) == []
    {
      hide Halted, LeftAlone, RunsSince, BegunAt, IdleOk, HandlingsOk, ListsOk;
      assert t !in Claimed({});
    }

    /** Right after a stop or a deletion was handled, with no later user command for its timer: the timer rests
        exactly if no restart of the daemon's own was queued behind the command. */
    lemma StopHoldsIff(t: TimerId)
      requires Valid()
      requires var i := LastUser(record.posted, t); 0 <= i == |record.handled| - 1 && Ends(record.posted[i].kind)
      ensures var i := LastUser(record.posted, t);
              && record.handled[i].seen <= |record.posted|
              && ((!Listed(t) && Pending(queue, t) == []) <==> NoneFor(record.posted, i + 1, record.handled[i].seen, t))
              && (!NoneFor(record.posted, i + 1, record.handled[i].seen, t) <==> Pending(queue, t) != [] && !Halted(record, t))
              && (!NoneFor(record.posted, i + 1, record.handled[i].seen, t) ==> RestartQueued(t))
    {
      hide Inv, Pending, RunsSince;
      var i := LastUser(record.posted, t);
      SeenBound(i);
      if NoneFor(record.posted, i + 1, record.handled[i].seen, t) {
        StopHolds(t);
      } else {
        var j :| i + 1 <= j < record.handled[i].seen && record.posted[j].timer == t;
        BehindIsQueued(t, j);
        PendingMembers(queue, t);
        var k :| 0 <= k < |queue| && queue[k].timer == t && queue[k].kind == StartDontTrace;
        assert queue[k] in Pending(queue, t);
      }
    }

    lemma SeenBound(i: nat)
      requires Valid() && i < |record.handled|
      ensures record.handled[i].seen <= |record.posted|
    {
      hide LeftAlone, BegunAt, RunsSince, IdleOk, HaltedOk, ListsOk, OwnReload;
      assert HandlingOk(record, record.handled[i], i, |calls|);
    }

    /** A restart of `t` is in the queue. */
    ghost predicate RestartQueued(t: TimerId)
      reads `queue
    {
      exists k :: 0 <= k < |queue| && queue[k].timer == t && queue[k].kind == StartDontTrace
    }

    lemma BehindIsQueued(t: TimerId, j: nat)
      requires Valid() && |record.handled| <= j < |record.posted| && record.posted[j].timer == t
      requires LastUser(record.posted, t) < j
      ensures RestartQueued(t)
    {
      hide Inv;
      QueueStarts();
      assert queue[j - record.taken] == record.posted[j];
    }

    /** A one-shot timer obeys every command: the daemon never sends a restart for it. */
    lemma OneShotObeys(t: TimerId)
      requires Valid() && t in timers && !timers[t].autoReload
      requires 0 <= LastUser(record.posted, t) < |record.handled|
      ensures var m := record.posted[LastUser(record.posted, t)];
              && (Begins(m.kind) ==> LeftAlone(record, t))
              && (Ends(m.kind) ==> Halted(record, t))
              && (Begins(m.kind) || Ends(m.kind))
    {
      hide HistoryOk, IdleOk, HaltedOk, ListsOk;
      var i := LastUser(record.posted, t);
      SeenBound(i);
      forall j | i < j < |record.posted| ensures record.posted[j].timer != t {
        assert record.posted[j] in record.posted;
      }
    }

    /** The daemon runs on, in any company, until it has handled the message that is `ahead` messages away, or
        the stretch that is looked at ends. */
    method UntilHandled(ahead: nat, rounds: nat) returns (done: bool)
      requires Valid() && ahead < |queue|
      modifies this
      ensures Valid() && Extends(old(record), record)
      ensures done ==> record.taken == old(record).taken + ahead + 1
      ensures done && IsStart(old(queue)[ahead].kind) ==> StartHandled(old(queue)[ahead])
    {
      hide Inv, HandledNext, Extends, StartHandled, CommandHandled;
      ExtendsSame(record);
      QueueStarts();
      ghost var r := record;
      assert r.taken + ahead < |r.posted| && r.posted[r.taken + ahead] == queue[ahead];
      var left: nat, n: nat := ahead, rounds;
      done := false;
      while n > 0 && !done
        invariant Valid() && Extends(old(record), record)
        invariant !done ==> left <= ahead && record.taken + left == old(record).taken + ahead
        invariant done ==> record.taken == old(record).taken + ahead + 1
        invariant done && IsStart(old(queue)[ahead].kind) ==> StartHandled(old(queue)[ahead])
      {
        ghost var before := record;
        if * {
          var _ := TimerRound();
        } else {
          QueueStarts();
          StillQueued(r, r.taken + ahead);
          ProcessCommand();
          HandledCounts(before, record, sampled);
          HandledTaken(before, record, sampled);
          if left == 0 {
            done := true;
          } else {
            left := left - 1;
          }
        }
        ExtendsOn(old(record), before, record);
        n := n - 1;
      }
    }

    lemma StillQueued(r: Record, j: nat)
      requires Valid() && Extends(r, record) && record.taken <= j < |r.posted|
      ensures queue != []
      ensures record.taken == j ==> queue[0] == r.posted[j]
    {
      hide Inv;
      QueueStarts();
    }

    /** A command with a restart behind it is undone: as soon as the restart has been handled, in whatever
        company and whatever else is queued, the timer is due one period after the restart's time. */
    method CommandUndone(t: TimerId, rounds: nat) returns (done: bool, ghost restart: Command)
      requires Valid() && RestartQueued(t)
      modifies this
      ensures Valid() && Extends(old(record), record)
      ensures restart in old(queue) && restart.timer == t && restart.kind == StartDontTrace
      ensures done ==> t in timers && CommandHandled(t, restart.sentAt + timers[t].period)
    {
      hide Inv, Extends, CommandHandled;
      var ahead: nat :| ahead < |queue| && queue[ahead].timer == t && queue[ahead].kind == StartDontTrace;
      restart := queue[ahead];
      done := UntilHandled(ahead, rounds);
    }

    lemma RestartBehind(t: TimerId, j: nat)
      requires Valid() && t in timers
      requires var i := LastUser(record.posted, t);
               && 0 <= i == |record.handled| - 1 && NoneLost(record.lost, i, t)
               && i < j < record.handled[i].seen <= |record.posted| && record.posted[j].timer == t
      requires Listed(t) ==> t in expiry
      requires !Listed(t) && timers[t].autoReload ==>
        exists due :: RestartSent(record, record.handled[LastUser(record.posted, t)].seen, Restart(t, due))
      ensures !OnSchedule(t, BegunAt(record, t), timers[t], RunsSince(record, calls, t), sampled,
                          if Listed(t) then Waiting(expiry[t]) else Idle, Pending(queue, t))
    {
      hide Inv, OnSchedule, BegunAt, RunsSince, Pending, RestartSent;
      var i := LastUser(record.posted, t);
      QueueStarts();
      assert queue[j - i - 1] == record.posted[j] && queue[j - i - 1] in queue;
      PendingMembers(queue, t);
      if !Listed(t) && timers[t].autoReload {
        var due :| RestartSent(record, record.handled[i].seen, Restart(t, due));
        RestartLast(record, t, i, due);
        PendingTwo(queue, t, j - i - 1, |record.posted| - 1 - i - 1);
      }
      NotOnSchedule(t, BegunAt(record, t), timers[t], RunsSince(record, calls, t), sampled,
                    if Listed(t) then Waiting(expiry[t]) else Idle, Pending(queue, t));
    }

    /** A late daemon undoes every command that is queued for the timer it serves.  An auto-reload timer has
        expired and its next due time has passed as well: the daemon's restart is queued behind all the commands
        that wait, and as soon as it has been handled, the timer is due one period after the old expiry. */
    method LateCommand(nextExpire: Tick, timeNow: Tick, rounds: nat)
      returns (done: bool, ghost t: TimerId, ghost expired: nat)
      requires Valid() && Overdue(nextExpire, timeNow) && |queue| < QUEUE_LENGTH
      modifies this
      ensures Valid() && t == old(current)[0].owner && t in old(expiry) && expired == old(expiry)[t]
      ensures Extends(old(record), record) && (done ==> |old(record).posted| < record.taken)
      ensures done ==> t in timers && CommandHandled(t, expired + timers[t].period)
    {
      hide Inv, Extends, Grew, CommandHandled;
      ghost var r, queued := record, queue;
      QueueStarts();
      var ahead := |queue|;
      t, expired := ProcessExpiredTimer(nextExpire, timeNow);
      ghost var restart, served := Restart(t, expired), record;
      SentBehind(r, queued, served, restart);
      GrewExtends(r, served);
      QueueStarts();
      assert queue[ahead] == restart;
      done := UntilHandled(ahead, rounds);
      ExtendsOn(r, served, record);
    }

    /** The head of the current list is an auto-reload timer whose expiry and next expiry have both passed. */
    ghost predicate Overdue(nextExpire: Tick, timeNow: Tick)
      reads `current, `timers, `expiry, `sampled, `lastTime
    {
      && current != [] && nextExpire == current[0].value && nextExpire <= timeNow == lastTime
      && var u := current[0].owner;
         u in timers && timers[u].autoReload && u in expiry && expiry[u] + timers[u].period <= sampled
    }

    /** A daemon that has not run for a while: a timer of period 1 was started at tick 4, and its reset of tick 7
        waits in the queue at tick 10. */
    constructor Starved()
      ensures Valid() && Overdue(5, 10)
      ensures |queue| == 1 && queue[0] == Command(Reset, current[0].owner, 7, 7)
    {
      hide HistoryOk, IdleOk, HaltedOk, OwnReload, ListsOk, OnSchedule, Pending, Tracked, Owners;
      var started, reset := Command(Start, 0, 4, 4), Command(Reset, 0, 7, 7);
      current, overflow, queue, lastTime := [Entry(0, 5)], [], [reset], 10;
      timers, clock, sampled, expiry := map[0 := Timer(1, true)], 10, 10, map[0 := 5];
      calls, requeues, start, fired := [], [], map[], map[];
      record := Record([started, reset], 1, [Handling(4, 1, 0)], [], {0});
      new;
      StarvedRecord(started, reset);
      assert Claimed({}) == {0};
      assert timers.Keys == {0};
    }

    /** Another way to be overtaken: a command sent from the timer's own callback, where the restart is sent after
        the callback, is queued in front of the restart. */
    method CommandInCallback(t: TimerId, m: Command, nextExpire: Tick, due: nat,
                             ghost epoch: nat, ghost busy: set<TimerId>, ghost holds: set<nat>)
      requires Inv(epoch, busy + {t}, holds)
      requires t in timers && timers[t].autoReload && t !in busy && !Listed(t)
      requires Stored(due) == nextExpire && due <= clock < due + TICKS && |queue| + 2 <= QUEUE_LENGTH
      requires m.timer == t && IsUser(m.kind) && m.sentAt <= clock < m.sentAt + TICKS
      requires IsStart(m.kind) ==> m.value == Stored(m.sentAt)
      requires m.kind == ChangePeriod ==> 0 < m.value
      modifies `queue, `requeues, `start, `record
      ensures Inv(epoch, busy, holds)
      ensures queue == old(queue) + [m, Restart(t, due)]
    {
      hide Inv;
      Post(epoch, busy + {t}, holds, m);
      SendAgain(t, nextExpire, due, epoch, busy, holds);
    }

    lemma QueueStarts()
      requires Valid()
      ensures record.taken == |record.handled| <= |record.posted| && queue == record.posted[record.taken..]
      ensures |record.posted| > record.taken ==> queue != [] && queue[0] == record.posted[record.taken]
    {
      hide LeftAlone, BegunAt, RunsSince, IdleOk, HaltedOk, HandlingsOk, ListsOk;
    }

    /** The form a caller can check.  A command is sent to a timer that is on no list, not in the daemon's hands
        (so not from its own callback) and has nothing queued, at whatever moment: the record is then
        Commanded(..).  In every later state in which it has been handled and no user command for the timer was
        sent after it, the timer obeys it, unless a restart of it was lost. */
    lemma IdleObeys(t: TimerId, r: Record, queued: seq<Command>, claimed: set<TimerId>, m: Command)
      requires Valid() && m.timer == t && t !in claimed && Pending(queued, t) == []
      requires Extends(Commanded(r, queued, claimed, m), record)
      requires LastUser(record.posted, t) == |r.posted| < |record.handled|
      ensures Ends(m.kind) ==> Halted(record, t)
      ensures Begins(m.kind) && NoneLost(record.lost, |r.posted|, t) ==>
        && LeftAlone(record, t)
        && BegunAt(record, t) == if m.kind == ChangePeriod then record.handled[|r.posted|].at else m.sentAt
    {
      hide LeftAlone, Halted, RunsSince, IdleOk, HaltedOk, OwnReload, HandlingsOk, ListsOk, Pending, Commanded;
      CommandedIdle(r, queued, claimed, m);
      ExtendsPosted(Commanded(r, queued, claimed, m), record, |r.posted|);
      IdleObeyed(record, queue, start, fired, calls, t);
    }

    /** Such a start over a run of the daemon. */
    method StartIdleTimer(t: TimerId, rounds: nat, limit: nat)
      requires Valid() && t in timers && !Listed(t) && Pending(queue, t) == [] && |queue| < QUEUE_LENGTH
      modifies this
      ensures Valid() && |old(record).posted| < |record.posted|
      ensures record.posted[|old(record).posted|] == Command(Start, t, Stored(old(clock)), old(clock))
      ensures var i := |old(record).posted|;
              i < |record.handled| && LastUser(record.posted, t) == i && NoneLost(record.lost, i, t) ==>
                LeftAlone(record, t) && BegunAt(record, t) == old(clock)
    {
      hide Inv, Extends, Pending, Commanded, LeftAlone, Halted, BegunAt;
      ghost var r, queued := record, queue;
      var m := Command(Start, t, Stored(clock), clock);
      Post(Epoch(sampled), {}, {}, m);
      ghost var sent := record;
      CommandedIdle(r, queued, Claimed({}), m);
      ghost var claimed := Claimed({});
      TimerTask(rounds, limit);
      ExtendsPosted(sent, record, |r.posted|);
      if |r.posted| < |record.handled| && LastUser(record.posted, t) == |r.posted| {
        IdleObeys(t, r, queued, claimed, m);
      }
    }
  }

  lemma StarvedRecord(started: Command, reset: Command)
    requires started == Command(Start, 0, 4, 4) && reset == Command(Reset, 0, 7, 7)
    ensures var r := Record([started, reset], 1, [Handling(4, 1, 0)], [], {0});
            && HistoryOk(r, [reset], map[], map[], [])
            && IdleOk(r, [reset], {0}) && HaltedOk(r, [reset], {0}, []) && OwnReload(r, map[0 := Timer(1, true)])
    ensures ListsOk([Entry(0, 5)], [], {0}, map[0 := 5], 0)
    ensures Owners([Entry(0, 5)]) == {0} && Owners([]) == {}
  {
    assert Entry(0, 5) in [Entry(0, 5)];
    var posted := [started, reset];
    forall t ensures LastUser(posted, t) == if t == 0 then 1 else -1 {
      LastUserIs(posted, t, if t == 0 then 1 else -1);
    }
    assert posted[1..] == [reset];
  }

  lemma PendingElsewhere(queue: seq<Command>)
    requires queue != []
    ensures forall u :: u != queue[0].timer ==> Pending(queue, u) == Pending(queue[1..], u)
  {
  }

  lemma FirstPending(queue: seq<Command>)
    requires queue != []
    ensures Pending(queue, queue[0].timer) == [queue[0]] + Pending(queue[1..], queue[0].timer)
  {
  }

  lemma NotOnSchedule(t: TimerId, start: nat, timer: Timer, fired: seq<Call>, sampled: nat,
                      list: ListState, pending: seq<Command>)
    requires pending != [] && (list.Waiting? || !timer.autoReload || |pending| > 1)
    ensures !OnSchedule(t, start, timer, fired, sampled, list, pending)
  {
  }

  lemma OnlyRestartPending(t: TimerId, start: nat, timer: Timer, fired: seq<Call>, sampled: nat,
                           list: ListState, pending: seq<Command>)
    requires OnSchedule(t, start, timer, fired, sampled, list, pending) && pending != []
    ensures list == Idle && |pending| == 1 && pending[0].kind == StartDontTrace
  {
  }

  /** Among the callbacks that a switch of the lists makes is the one for the due time. */
  lemma FirstServed(calls: seq<Call>, t: TimerId, timer: Timer, due: nat)
    requires timer.period > 0 && CallsOf(calls, t) == ServedBySwitch(timer, due)
    ensures exists i :: 0 <= i < |calls| && calls[i].timer == t && calls[i].nominal == due
  {
    assert CallsOf(calls, t)[0] == due;
    RunsAreCalls(calls, t);
    assert Runs(calls, t)[0] in Runs(calls, t);
  }

  lemma {:induction false} RunsAreCalls(calls: seq<Call>, t: TimerId)
    ensures forall c :: c in Runs(calls, t) ==> c in calls && c.timer == t
  {
    if calls != [] {
      RunsAreCalls(calls[..|calls| - 1], t);
    }
  }

  lemma SameEpochOrder(due: nat, sampled: nat)
    requires Epoch(due) == Epoch(sampled) && Stored(due) <= Stored(sampled)
    ensures due <= sampled < due + TICKS
  {
    StoredParts(due);
    StoredParts(sampled);
  }

  lemma InsertFacts(s: seq<Entry>, e: Entry)
    requires Sorted(s) && DistinctOwners(s) && e.owner !in Owners(s)
    ensures Sorted(Inserted(s, e)) && DistinctOwners(Inserted(s, e))
    ensures Owners(Inserted(s, e)) == Owners(s) + {e.owner}
    ensures forall x :: x in Inserted(s, e) <==> x in s || x == e
    ensures Inserted(s, e) != []
  {
    InsertedSorted(s, e);
    InsertedDistinct(s, e);
    InsertedMembers(s, e);
  }
}
