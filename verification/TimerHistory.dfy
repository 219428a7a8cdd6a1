/** The messages of the timer daemon, and the record of what was sent, handled and lost.  What it means
    that a timer was started and left alone is read off this record alone. */
module TimerHistory {
  import opened Ticks
  import opened Sequences

  type TimerId = nat

  datatype CommandKind = StartDontTrace | Start | Reset | Stop | ChangePeriod | Delete

  /** A message on the command queue.  `value` is the word the message carries; `sentAt` is the
      true time it stands for (history, never read by the daemon). */
  datatype Command = Command(kind: CommandKind, timer: TimerId, value: Tick, sentAt: nat)

  /** One run of a callback: the true time it was due and the true time it ran. */
  datatype Call = Call(timer: TimerId, nominal: nat, at: nat)

  /** The moment a message was handled: the sampled time, and how many messages had been accepted and
      how many callbacks had run by then. */
  datatype Handling = Handling(at: nat, seen: nat, calls: nat)

  /** A restart message of the daemon that found the queue full: how many messages had been handled, and
      how many were queued. */
  datatype Loss = Loss(timer: TimerId, before: nat, queued: nat)

  const QUEUE_LENGTH: nat := 32

  predicate IsStart(kind: CommandKind) {
    kind == StartDontTrace || kind == Start || kind == Reset
  }

  /** All but the daemon's own restart come from users. */
  predicate IsUser(kind: CommandKind) {
    kind != StartDontTrace
  }

  /** The user commands after which a timer is active. */
  predicate Begins(kind: CommandKind) {
    kind == Start || kind == Reset || kind == ChangePeriod
  }

  /** The queued commands for one timer. */
  function Pending(queue: seq<Command>, t: TimerId): seq<Command> {
    if queue == [] then []
    else (if queue[0].timer == t then [queue[0]] else []) + Pending(queue[1..], t)
  }

  lemma {:induction false} PendingAppend(queue: seq<Command>, c: Command, t: TimerId)
    ensures Pending(queue + [c], t) == Pending(queue, t) + (if c.timer == t then [c] else [])
  {
    if queue == [] {
      assert (queue + [c])[1..] == [];
    } else {
      assert (queue + [c])[1..] == queue[1..] + [c];
      PendingAppend(queue[1..], c, t);
      Regroup(if queue[0].timer == t then [queue[0]] else [], Pending(queue[1..], t), if c.timer == t then [c] else []);
    }
  }

  lemma PendingAppendAll(queue: seq<Command>, c: Command)
    ensures forall t :: Pending(queue + [c], t) == Pending(queue, t) + (if c.timer == t then [c] else [])
  {
    forall t ensures Pending(queue + [c], t) == Pending(queue, t) + (if c.timer == t then [c] else []) {
      PendingAppend(queue, c, t);
    }
  }

  lemma {:induction false} PendingMembers(queue: seq<Command>, t: TimerId)
    ensures forall m :: m in Pending(queue, t) <==> m in queue && m.timer == t
  {
    if queue != [] {
      PendingMembers(queue[1..], t);
      assert queue == [queue[0]] + queue[1..];
    }
  }

  /** The record: the messages the queue has accepted, how many of them were taken off it, the handling of
      each, the restarts that were lost, and which messages found their timer idle: on no list, not in the
      daemon's hands, and with nothing queued. */
  datatype Record = Record(posted: seq<Command>, taken: nat, handled: seq<Handling>, lost: seq<Loss>, idle: set<nat>)

  // ------------------------------------------------------ Reading the record

  predicate NoneFor(posted: seq<Command>, from: nat, to: nat, t: TimerId)
    requires to <= |posted|
  {
    forall j :: from <= j < to ==> posted[j].timer != t
  }

  /** The number of the last user command for `t`, or -1. */
  function LastUser(posted: seq<Command>, t: TimerId): (i: int)
    ensures -1 <= i < |posted|
    ensures i >= 0 ==> posted[i].timer == t && IsUser(posted[i].kind)
    ensures forall j :: i < j < |posted| ==> posted[j].timer != t || !IsUser(posted[j].kind)
  {
    if posted == [] then -1
    else
      var last := posted[|posted| - 1];
      if last.timer == t && IsUser(last.kind) then |posted| - 1 else LastUser(posted[..|posted| - 1], t)
  }

  lemma LastUserIs(posted: seq<Command>, t: TimerId, i: int)
    requires -1 <= i < |posted|
    requires i >= 0 ==> posted[i].timer == t && IsUser(posted[i].kind)
    requires forall j :: i < j < |posted| ==> posted[j].timer != t || !IsUser(posted[j].kind)
    ensures LastUser(posted, t) == i
  {
  }

  /** `t` was started and left alone since: the last user command for it has been handled and makes it
      active, no restart of the daemon's own was queued behind that command, and none was lost since. */
  predicate LeftAlone(r: Record, t: TimerId) {
    var i := LastUser(r.posted, t);
    && 0 <= i < |r.handled|
    && Begins(r.posted[i].kind)
    && r.handled[i].seen <= |r.posted| && NoneFor(r.posted, i + 1, r.handled[i].seen, t)
    && NoneLost(r.lost, i, t)
  }

  /** The user commands after which a timer is dormant. */
  predicate Ends(kind: CommandKind) {
    kind == Stop || kind == Delete
  }

  /** `t` was stopped and left alone since: the last user command for it has been handled and makes it
      dormant, and no restart of the daemon's own was queued behind that command. */
  predicate Halted(r: Record, t: TimerId) {
    var i := LastUser(r.posted, t);
    && 0 <= i < |r.handled|
    && Ends(r.posted[i].kind)
    && r.handled[i].seen <= |r.posted| && NoneFor(r.posted, i + 1, r.handled[i].seen, t)
  }

  predicate NoneLost(lost: seq<Loss>, i: int, t: TimerId) {
    forall l :: l in lost && l.timer == t ==> l.before <= i
  }

  /** The time its periods count from: that of the start, or that at which the new period was handled. */
  function BegunAt(r: Record, t: TimerId): nat {
    var i := LastUser(r.posted, t);
    if !(0 <= i < |r.handled|) then 0
    else if r.posted[i].kind == ChangePeriod then r.handled[i].at else r.posted[i].sentAt
  }

  /** The runs of the callback of `t`. */
  function Runs(calls: seq<Call>, t: TimerId): seq<Call> {
    if calls == [] then []
    else Runs(calls[..|calls| - 1], t) + (if calls[|calls| - 1].timer == t then [calls[|calls| - 1]] else [])
  }

  /** Its runs since its last user command was handled. */
  function RunsSince(r: Record, calls: seq<Call>, t: TimerId): seq<Call> {
    var i := LastUser(r.posted, t);
    if 0 <= i < |r.handled| && r.handled[i].calls <= |calls| then Runs(calls[r.handled[i].calls..], t) else []
  }

  /** The record is in step with the queue, `start` and `fired` say what can be read off it, and no
      restart was ever queued behind a command that found its timer idle. */
  ghost predicate HistoryOk(r: Record, queue: seq<Command>, start: map<TimerId, nat>, fired: map<TimerId, seq<Call>>,
                            calls: seq<Call>) {
    && |r.handled| <= r.taken <= |r.posted| && queue == r.posted[r.taken..]
    && HandlingsOk(r, |calls|)
    && (forall l :: l in r.lost ==> l.before <= |r.handled| && l.queued == QUEUE_LENGTH)
    && (forall i :: i in r.idle ==> i < |r.posted| && IsUser(r.posted[i].kind))
    && (forall t :: t in start <==> LeftAlone(r, t))
    && (forall t :: t in start ==> start[t] == BegunAt(r, t) && t in fired && fired[t] == RunsSince(r, calls, t))
  }

  ghost predicate HandlingsOk(r: Record, calls: nat) {
    && |r.handled| <= |r.posted|
    && forall i :: 0 <= i < |r.handled| ==> HandlingOk(r, r.handled[i], i, calls)
  }

  ghost predicate HandlingOk(r: Record, h: Handling, i: nat, calls: nat)
    requires i < |r.posted|
  {
    && i < h.seen <= |r.posted| && h.calls <= calls
    && (i in r.idle && OnlyUser(r.posted, i, h.seen) ==> NoneFor(r.posted, i + 1, h.seen, r.posted[i].timer))
  }

  /** No other user command for the same timer follows command `i` up to `to`. */
  predicate OnlyUser(posted: seq<Command>, i: nat, to: nat)
    requires i < to <= |posted|
  {
    forall j :: i < j < to ==> posted[j].timer != posted[i].timer || !IsUser(posted[j].kind)
  }

  /** While a command that found its timer idle waits as the last one for that timer, the timer is not
      among those that are on a list or in the daemon's hands, and nothing else is queued for it. */
  ghost predicate IdleOk(r: Record, queue: seq<Command>, claimed: set<TimerId>) {
    forall t :: IdleWaits(r, t) ==> t !in claimed && Pending(queue, t) == [r.posted[LastUser(r.posted, t)]]
  }

  /** A timer that was stopped and left alone is on no list, not in the daemon's hands and not in the queue,
      and its callback has not run since. */
  ghost predicate HaltedOk(r: Record, queue: seq<Command>, claimed: set<TimerId>, calls: seq<Call>) {
    forall t :: Halted(r, t) ==> t !in claimed && Pending(queue, t) == [] && RunsSince(r, calls, t) == []
  }

  predicate IdleWaits(r: Record, t: TimerId) {
    var i := LastUser(r.posted, t);
    i >= r.taken && i in r.idle
  }

  // -------------------------------------------------- How the record grows

  /** Nothing was taken or handled, and nothing was rewritten. */
  ghost predicate Grew(r: Record, q: Record) {
    && r.posted <= q.posted && r.taken == q.taken && r.handled == q.handled && r.lost <= q.lost
    && forall i :: i < |r.posted| ==> (i in q.idle <==> i in r.idle)
  }

  /** The record only ever grows, and what is handled later is handled with all of it in sight. */
  ghost predicate Extends(r: Record, q: Record) {
    && r.posted <= q.posted && r.taken <= q.taken && r.handled <= q.handled && r.lost <= q.lost
    && (forall i :: i < |r.posted| ==> (i in q.idle <==> i in r.idle))
    && (forall i :: |r.handled| <= i < |q.handled| ==> |r.posted| <= q.handled[i].seen)
  }

  /** One message was taken off the queue and handled at sampled time `at`, after it was taken. */
  ghost predicate HandledNext(r: Record, q: Record, at: nat) {
    && Extends(r, q) && q.taken == r.taken + 1 && |q.handled| == |r.handled| + 1
    && var h := q.handled[|r.handled|]; h.at == at && |r.posted| <= h.seen <= |q.posted|
  }

  lemma ExtendsSame(r: Record)
    ensures Extends(r, r)
  {
  }

  lemma GrewExtends(r: Record, q: Record)
    ensures Grew(r, q) ==> Extends(r, q)
    ensures forall at :: HandledNext(r, q, at) ==> Extends(r, q)
  {
  }

  lemma ExtendsCounts(r: Record, q: Record)
    requires Extends(r, q)
    ensures r.taken <= q.taken && |r.posted| <= |q.posted|
  {
  }

  lemma ExtendsOn(r: Record, q: Record, p: Record)
    requires Extends(r, q) && Extends(q, p)
    ensures Extends(r, p)
  {
  }

  /** The steps of one handling: taken, more came in, marked, more came in. */
  lemma HandledSteps(r: Record, a: Record, b: Record, q: Record, at: nat, calls: nat)
    requires Grew(r.(taken := r.taken + 1), a) && b == Marked(a, at, calls) && Grew(b, q)
    requires r.taken == |r.handled|
    ensures HandledNext(r, q, at)
  {
  }

  lemma HandledTaken(r: Record, q: Record, at: nat)
    requires HandledNext(r, q, at)
    ensures q.taken == r.taken + 1
  {
  }

  lemma HandledCounts(r: Record, q: Record, at: nat)
    requires HandledNext(r, q, at) && r.taken == |r.handled|
    ensures q.taken == |q.handled| > 0 && Extends(r, q)
  {
  }

  /** The restart of `t` for `due` is the last message accepted, after the first `seen`, or was the last to be
      lost. */
  ghost predicate RestartSent(r: Record, seen: nat, restart: Command) {
    || (|r.posted| > seen && r.posted[|r.posted| - 1] == restart)
    || (r.lost != [] && r.lost[|r.lost| - 1] == Loss(restart.timer, |r.handled|, QUEUE_LENGTH))
  }

  /** The restarts and losses that came are for timers in `these`. */
  ghost predicate OwnOnly(r: Record, q: Record, these: set<TimerId>) {
    && (forall j :: |r.posted| <= j < |q.posted| && !IsUser(q.posted[j].kind) ==> q.posted[j].timer in these)
    && (forall j :: |r.lost| <= j < |q.lost| ==> q.lost[j].timer in these)
  }

  /** None is for a timer in `these`. */
  ghost predicate OwnNot(r: Record, q: Record, these: set<TimerId>) {
    && (forall j :: |r.posted| <= j < |q.posted| && !IsUser(q.posted[j].kind) ==> q.posted[j].timer !in these)
    && (forall j :: |r.lost| <= j < |q.lost| ==> q.lost[j].timer !in these)
  }

  lemma GrewSame(r: Record, these: set<TimerId>)
    ensures Grew(r, r) && OwnOnly(r, r, these) && OwnNot(r, r, these)
  {
  }

  lemma GrewOn(r: Record, q: Record, p: Record)
    requires Grew(r, q) && Grew(q, p)
    ensures Grew(r, p)
    ensures forall these :: OwnOnly(r, q, these) && OwnOnly(q, p, these) ==> OwnOnly(r, p, these)
    ensures forall these :: OwnNot(r, q, these) && OwnNot(q, p, these) ==> OwnNot(r, p, these)
  {
    assert forall j :: 0 <= j < |q.posted| ==> q.posted[j] == p.posted[j];
    assert forall j :: 0 <= j < |q.lost| ==> q.lost[j] == p.lost[j];
  }

  lemma GrewCounts(r: Record, q: Record)
    requires Grew(r, q)
    ensures q.taken == r.taken && q.handled == r.handled
  {
  }

  lemma OwnWider(r: Record, q: Record, these: set<TimerId>, more: set<TimerId>)
    requires OwnOnly(r, q, these)
    ensures these <= more ==> OwnOnly(r, q, more)
    ensures these !! more ==> OwnNot(r, q, more)
  {
  }

  // --------------------------------------------------------- Steps of the record

  lemma LastUserAppend(posted: seq<Command>, c: Command, t: TimerId)
    ensures LastUser(posted + [c], t)
         == if c.timer == t && IsUser(c.kind) then |posted| else LastUser(posted, t)
  {
    assert (posted + [c])[..|posted|] == posted;
  }

  lemma RunsAppend(calls: seq<Call>, c: Call, t: TimerId)
    ensures Runs(calls + [c], t) == Runs(calls, t) + (if c.timer == t then [c] else [])
  {
    assert (calls + [c])[..|calls|] == calls;
  }

  /** The record after one more message. */
  function Accepted(r: Record, c: Command, idle: set<nat>): Record {
    r.(posted := r.posted + [c], idle := idle)
  }

  /** The record after a user command: it found its timer idle if that is not claimed and has nothing queued. */
  function Commanded(r: Record, queue: seq<Command>, claimed: set<TimerId>, c: Command): Record {
    Accepted(r, c, if c.timer !in claimed && Pending(queue, c.timer) == [] then r.idle + {|r.posted|} else r.idle)
  }

  lemma CommandedGrew(r: Record, queue: seq<Command>, claimed: set<TimerId>, c: Command)
    requires IsUser(c.kind)
    ensures Grew(r, Commanded(r, queue, claimed, c)) && OwnOnly(r, Commanded(r, queue, claimed, c), {})
  {
    hide Pending;
    AcceptedGrew(r, c, Commanded(r, queue, claimed, c).idle);
  }

  /** The record after an attempt to send a restart. */
  function Restarted(r: Record, queue: seq<Command>, c: Command): Record {
    if |queue| < QUEUE_LENGTH then Accepted(r, c, r.idle) else WithLoss(r, c.timer)
  }

  /** A message for another timer, or one of the daemon's own, does not disturb `t`. */
  lemma AppendKeeps(r: Record, c: Command, idle: set<nat>, calls: seq<Call>, t: TimerId)
    requires (c.timer != t || !IsUser(c.kind)) && HandlingsOk(r, |calls|)
    ensures var q := Accepted(r, c, idle);
            && (LeftAlone(q, t) <==> LeftAlone(r, t))
            && BegunAt(q, t) == BegunAt(r, t)
            && RunsSince(q, calls, t) == RunsSince(r, calls, t)
  {
    LastUserAppend(r.posted, c, t);
    var i := LastUser(r.posted, t);
    if 0 <= i < |r.handled| {
      assert HandlingOk(r, r.handled[i], i, |calls|);
      var posted := r.posted + [c];
      assert forall j :: 0 <= j < |r.posted| ==> posted[j] == r.posted[j];
      assert NoneFor(posted, i + 1, r.handled[i].seen, t) <==> NoneFor(r.posted, i + 1, r.handled[i].seen, t);
    }
  }

  lemma HandlingsKeep(r: Record, c: Command, idle: set<nat>, calls: nat)
    requires HandlingsOk(r, calls) && forall i :: i in idle ==> i in r.idle || i == |r.posted|
    ensures HandlingsOk(Accepted(r, c, idle), calls)
  {
    var q := Accepted(r, c, idle);
    forall i | 0 <= i < |r.handled| ensures HandlingOk(q, q.handled[i], i, calls) {
      assert HandlingOk(r, r.handled[i], i, calls);
      assert forall j :: 0 <= j < |r.posted| ==> q.posted[j] == r.posted[j];
      if OnlyUser(q.posted, i, r.handled[i].seen) {
        assert OnlyUser(r.posted, i, r.handled[i].seen);
      }
    }
  }

  lemma AcceptedGrew(r: Record, c: Command, idle: set<nat>)
    requires idle == r.idle || idle == r.idle + {|r.posted|}
    ensures Grew(r, Accepted(r, c, idle))
    ensures IsUser(c.kind) ==> forall these :: OwnOnly(r, Accepted(r, c, idle), these) && OwnNot(r, Accepted(r, c, idle), these)
    ensures OwnOnly(r, Accepted(r, c, idle), {c.timer})
  {
  }

  /** The daemon's own restart is accepted: everybody stays as undisturbed as before. */
  lemma OwnAccepted(r: Record, queue: seq<Command>, start: map<TimerId, nat>, fired: map<TimerId, seq<Call>>,
                    calls: seq<Call>, c: Command)
    requires HistoryOk(r, queue, start, fired, calls) && !IsUser(c.kind)
    ensures HistoryOk(Accepted(r, c, r.idle), queue + [c], start, fired, calls)
  {
    hide LeftAlone, BegunAt, RunsSince, HandlingsOk;
    HandlingsKeep(r, c, r.idle, |calls|);
    forall t
      ensures LeftAlone(Accepted(r, c, r.idle), t) <==> LeftAlone(r, t)
      ensures BegunAt(Accepted(r, c, r.idle), t) == BegunAt(r, t)
      ensures RunsSince(Accepted(r, c, r.idle), calls, t) == RunsSince(r, calls, t)
    {
      AppendKeeps(r, c, r.idle, calls, t);
    }
  }

  /** A user command is accepted: its timer is no longer left alone, all others are as before. */
  lemma UserAccepted(r: Record, queue: seq<Command>, start: map<TimerId, nat>, fired: map<TimerId, seq<Call>>,
                     calls: seq<Call>, c: Command, idle: set<nat>)
    requires HistoryOk(r, queue, start, fired, calls) && IsUser(c.kind)
    requires idle == r.idle || idle == r.idle + {|r.posted|}
    ensures HistoryOk(Accepted(r, c, idle), queue + [c], start - {c.timer}, fired, calls)
  {
    hide LeftAlone, BegunAt, RunsSince, HandlingsOk;
    HandlingsKeep(r, c, idle, |calls|);
    CommandDisturbs(r, c, idle);
    var q := Accepted(r, c, idle);
    assert forall i :: 0 <= i < |r.posted| ==> q.posted[i] == r.posted[i];
    assert q.posted[|r.posted|] == c && q.posted[q.taken..] == queue + [c];
    assert forall i :: i in q.idle ==> i < |q.posted| && IsUser(q.posted[i].kind);
    forall t | t != c.timer
      ensures LeftAlone(Accepted(r, c, idle), t) <==> LeftAlone(r, t)
      ensures BegunAt(Accepted(r, c, idle), t) == BegunAt(r, t)
      ensures RunsSince(Accepted(r, c, idle), calls, t) == RunsSince(r, calls, t)
    {
      AppendKeeps(r, c, idle, calls, t);
    }
  }

  lemma CommandDisturbs(r: Record, c: Command, idle: set<nat>)
    requires IsUser(c.kind) && |r.handled| <= |r.posted|
    ensures !LeftAlone(Accepted(r, c, idle), c.timer)
  {
    LastUserAppend(r.posted, c, c.timer);
  }

  function WithLoss(r: Record, t: TimerId): Record {
    r.(lost := r.lost + [Loss(t, |r.handled|, QUEUE_LENGTH)])
  }

  /** A restart is lost: its timer is no longer left alone. */
  lemma OwnLost(r: Record, queue: seq<Command>, start: map<TimerId, nat>, fired: map<TimerId, seq<Call>>,
                calls: seq<Call>, t: TimerId)
    requires HistoryOk(r, queue, start, fired, calls)
    ensures HistoryOk(WithLoss(r, t), queue, start - {t}, fired, calls)
    ensures Grew(r, WithLoss(r, t)) && OwnOnly(r, WithLoss(r, t), {t})
  {
    hide LeftAlone, BegunAt, RunsSince, HandlingsOk;
    var q := WithLoss(r, t);
    HandlingsSame(r, q, |calls|, |calls|);
    forall u
      ensures LeftAlone(q, u) <==> u != t && LeftAlone(r, u)
      ensures BegunAt(q, u) == BegunAt(r, u) && RunsSince(q, calls, u) == RunsSince(r, calls, u)
    {
      OneLost(r, t, u, calls);
    }
    assert forall l :: l in q.lost <==> l in r.lost || l == Loss(t, |r.handled|, QUEUE_LENGTH);
  }

  lemma OneLost(r: Record, t: TimerId, u: TimerId, calls: seq<Call>)
    ensures LeftAlone(WithLoss(r, t), u) <==> u != t && LeftAlone(r, u)
    ensures BegunAt(WithLoss(r, t), u) == BegunAt(r, u) && RunsSince(WithLoss(r, t), calls, u) == RunsSince(r, calls, u)
  {
    var q := WithLoss(r, t);
    assert q.lost[|r.lost|] in q.lost;
    assert forall l :: l in q.lost <==> l in r.lost || l == Loss(t, |r.handled|, QUEUE_LENGTH);
  }

  lemma HandlingsSame(r: Record, q: Record, calls: nat, more: nat)
    requires HandlingsOk(r, calls) && calls <= more
    requires q.posted == r.posted && q.handled == r.handled && q.idle == r.idle
    ensures HandlingsOk(q, more)
  {
    forall i | 0 <= i < |r.handled| ensures HandlingOk(q, q.handled[i], i, more) {
      assert HandlingOk(r, r.handled[i], i, calls);
    }
  }

  /** A callback has run. */
  lemma CallRecorded(r: Record, queue: seq<Command>, start: map<TimerId, nat>, fired: map<TimerId, seq<Call>>,
                     calls: seq<Call>, c: Call)
    requires HistoryOk(r, queue, start, fired, calls)
    ensures HistoryOk(r, queue, start, fired[c.timer := (if c.timer in fired then fired[c.timer] else []) + [c]], calls + [c])
  {
    hide LeftAlone, BegunAt, RunsSince, HandlingsOk;
    HandlingsSame(r, r, |calls|, |calls| + 1);
    forall t | t in start
      ensures RunsSince(r, calls + [c], t) == RunsSince(r, calls, t) + (if c.timer == t then [c] else [])
    {
      RunsGrow(r, calls, c, t);
    }
  }

  lemma RunsGrow(r: Record, calls: seq<Call>, c: Call, t: TimerId)
    requires HandlingsOk(r, |calls|) && LeftAlone(r, t)
    ensures RunsSince(r, calls + [c], t) == RunsSince(r, calls, t) + (if c.timer == t then [c] else [])
  {
    var i := LastUser(r.posted, t);
    assert HandlingOk(r, r.handled[i], i, |calls|);
    var from := r.handled[i].calls;
    assert (calls + [c])[from..] == calls[from..] + [c];
    RunsAppend(calls[from..], c, t);
  }

  /** A message is taken off the queue. */
  lemma Taking(r: Record, queue: seq<Command>, start: map<TimerId, nat>, fired: map<TimerId, seq<Call>>, calls: seq<Call>)
    requires HistoryOk(r, queue, start, fired, calls) && queue != []
    ensures r.taken < |r.posted| && r.posted[r.taken] == queue[0]
    ensures HistoryOk(r.(taken := r.taken + 1), queue[1..], start, fired, calls)
  {
    hide LeftAlone, BegunAt, RunsSince, HandlingsOk;
    var q := r.(taken := r.taken + 1);
    HandlingsSame(r, q, |calls|, |calls|);
    forall t
      ensures LeftAlone(q, t) <==> LeftAlone(r, t)
      ensures BegunAt(q, t) == BegunAt(r, t) && RunsSince(q, calls, t) == RunsSince(r, calls, t)
    {
      TakenSame(r, calls, t);
    }
  }

  lemma TakenSame(r: Record, calls: seq<Call>, t: TimerId)
    ensures var q := r.(taken := r.taken + 1);
            && (LeftAlone(q, t) <==> LeftAlone(r, t))
            && BegunAt(q, t) == BegunAt(r, t) && RunsSince(q, calls, t) == RunsSince(r, calls, t)
  {
  }

  lemma IdleOwn(r: Record, queue: seq<Command>, claimed: set<TimerId>, c: Command)
    requires IdleOk(r, queue, claimed) && !IsUser(c.kind) && c.timer in claimed
    ensures IdleOk(Accepted(r, c, r.idle), queue + [c], claimed)
  {
    hide Pending;
    var q := Accepted(r, c, r.idle);
    PendingAppendAll(queue, c);
    forall t | IdleWaits(q, t)
      ensures t !in claimed && Pending(queue + [c], t) == [q.posted[LastUser(q.posted, t)]]
    {
      LastUserAppend(r.posted, c, t);
      assert IdleWaits(r, t);
    }
  }

  lemma IdleUser(r: Record, queue: seq<Command>, claimed: set<TimerId>, c: Command, idle: set<nat>)
    requires IdleOk(r, queue, claimed) && IsUser(c.kind)
    requires forall i :: i in r.idle ==> i < |r.posted|
    requires idle == if c.timer !in claimed && Pending(queue, c.timer) == [] then r.idle + {|r.posted|} else r.idle
    ensures IdleOk(Accepted(r, c, idle), queue + [c], claimed)
  {
    hide Pending;
    var q := Accepted(r, c, idle);
    PendingAppendAll(queue, c);
    forall t | IdleWaits(q, t)
      ensures t !in claimed && Pending(queue + [c], t) == [q.posted[LastUser(q.posted, t)]]
    {
      LastUserAppend(r.posted, c, t);
      if t != c.timer {
        assert IdleWaits(r, t);
      }
    }
  }

  /** The timer of the message that is taken comes into the daemon's hands. */
  lemma IdleTake(r: Record, queue: seq<Command>, claimed: set<TimerId>)
    requires IdleOk(r, queue, claimed) && r.taken < |r.posted| && queue == r.posted[r.taken..]
    ensures IdleOk(r.(taken := r.taken + 1), queue[1..], claimed + {queue[0].timer})
    ensures var m := queue[0];
            r.taken in r.idle && LastUser(r.posted, m.timer) == r.taken ==> Pending(queue[1..], m.timer) == []
  {
    var m, q := queue[0], r.(taken := r.taken + 1);
    assert r.posted[r.taken + 1..] == queue[1..];
    forall t | IdleWaits(q, t)
      ensures t !in claimed + {m.timer} && Pending(queue[1..], t) == [r.posted[LastUser(r.posted, t)]]
    {
      assert IdleWaits(r, t);
      var i := LastUser(r.posted, t);
      assert queue[1..][i - r.taken - 1] == r.posted[i];
      PendingMembers(queue[1..], t);
      assert r.posted[i] in Pending(queue[1..], t);
    }
    if r.taken in r.idle && LastUser(r.posted, m.timer) == r.taken {
      assert IdleWaits(r, m.timer);
    }
  }

  lemma IdleFewer(r: Record, q: Record, queue: seq<Command>, claimed: set<TimerId>, fewer: set<TimerId>)
    requires IdleOk(r, queue, claimed) && fewer <= claimed
    requires q.posted == r.posted && q.taken == r.taken && q.idle == r.idle
    ensures IdleOk(q, queue, fewer)
  {
    forall t | IdleWaits(q, t) ensures IdleWaits(r, t) {
    }
  }

  /** A message for another timer, or one of the daemon's own, does not end the rest of `t`. */
  lemma AppendRests(r: Record, c: Command, idle: set<nat>, calls: seq<Call>, t: TimerId)
    requires HandlingsOk(r, |calls|)
    ensures var q := Accepted(r, c, idle);
            if c.timer == t && IsUser(c.kind) then !Halted(q, t)
            else (Halted(q, t) <==> Halted(r, t)) && RunsSince(q, calls, t) == RunsSince(r, calls, t)
  {
    LastUserAppend(r.posted, c, t);
    var i := LastUser(r.posted, t);
    if 0 <= i < |r.handled| {
      assert HandlingOk(r, r.handled[i], i, |calls|);
      var posted := r.posted + [c];
      assert forall j :: 0 <= j < |r.posted| ==> posted[j] == r.posted[j];
      assert NoneFor(posted, i + 1, r.handled[i].seen, t) <==> NoneFor(r.posted, i + 1, r.handled[i].seen, t);
    }
  }

  /** A message comes in: a user command, or a restart of a timer in the daemon's hands. */
  lemma HaltedAccept(r: Record, queue: seq<Command>, claimed: set<TimerId>, calls: seq<Call>, c: Command, idle: set<nat>)
    requires HaltedOk(r, queue, claimed, calls) && HandlingsOk(r, |calls|)
    requires IsUser(c.kind) || c.timer in claimed
    ensures HaltedOk(Accepted(r, c, idle), queue + [c], claimed, calls)
  {
    hide Pending, Halted, RunsSince, HandlingsOk;
    PendingAppendAll(queue, c);
    forall t | Halted(Accepted(r, c, idle), t)
      ensures t !in claimed && Pending(queue + [c], t) == [] && RunsSince(Accepted(r, c, idle), calls, t) == []
    {
      AppendRests(r, c, idle, calls, t);
    }
  }

  lemma HaltedLost(r: Record, queue: seq<Command>, claimed: set<TimerId>, calls: seq<Call>, t: TimerId)
    requires HaltedOk(r, queue, claimed, calls)
    ensures HaltedOk(WithLoss(r, t), queue, claimed, calls)
  {
    forall u | Halted(WithLoss(r, t), u) ensures Halted(r, u) && RunsSince(WithLoss(r, t), calls, u) == RunsSince(r, calls, u) {
    }
  }

  /** The callback of a timer in the daemon's hands runs. */
  lemma HaltedCall(r: Record, queue: seq<Command>, claimed: set<TimerId>, calls: seq<Call>, c: Call)
    requires HaltedOk(r, queue, claimed, calls) && HandlingsOk(r, |calls|) && c.timer in claimed
    ensures HaltedOk(r, queue, claimed, calls + [c])
  {
    hide Halted, RunsSince, HandlingsOk, Pending;
    forall t | Halted(r, t) ensures RunsSince(r, calls + [c], t) == [] {
      RestsOn(r, calls, c, t);
    }
  }

  lemma RestsOn(r: Record, calls: seq<Call>, c: Call, t: TimerId)
    requires HandlingsOk(r, |calls|) && Halted(r, t) && c.timer != t
    ensures RunsSince(r, calls + [c], t) == RunsSince(r, calls, t)
  {
    var i := LastUser(r.posted, t);
    assert HandlingOk(r, r.handled[i], i, |calls|);
    var from := r.handled[i].calls;
    assert (calls + [c])[from..] == calls[from..] + [c];
    RunsAppend(calls[from..], c, t);
  }

  /** A message is taken: its timer was not at rest. */
  lemma HaltedTake(r: Record, queue: seq<Command>, claimed: set<TimerId>, calls: seq<Call>)
    requires HaltedOk(r, queue, claimed, calls) && queue != []
    ensures HaltedOk(r.(taken := r.taken + 1), queue[1..], claimed + {queue[0].timer}, calls)
  {
    var q := r.(taken := r.taken + 1);
    forall t | Halted(q, t) ensures Halted(r, t) && RunsSince(q, calls, t) == RunsSince(r, calls, t) {
    }
  }

  lemma HaltedFewer(r: Record, queue: seq<Command>, claimed: set<TimerId>, fewer: set<TimerId>, calls: seq<Call>)
    requires HaltedOk(r, queue, claimed, calls) && fewer <= claimed
    ensures HaltedOk(r, queue, fewer, calls)
  {
  }

  /** Whether its timer counts as stopped from here on. */
  predicate EndsNow(posted: seq<Command>, i: nat)
    requires i < |posted|
  {
    Ends(posted[i].kind) && NoneFor(posted, i + 1, |posted|, posted[i].timer)
  }

  /** Handling a stop or a deletion puts its timer to rest exactly if nothing is queued behind it; all other
      timers stay as they were. */
  lemma HandleRest(r: Record, at: nat, calls: seq<Call>, t: TimerId)
    requires |r.handled| < |r.posted|
    ensures Halted(Marked(r, at, |calls|), t) <==>
              ((t == r.posted[|r.handled|].timer && EndsNow(r.posted, |r.handled|)) || Halted(r, t))
    ensures Halted(Marked(r, at, |calls|), t) && !Halted(r, t) ==> RunsSince(Marked(r, at, |calls|), calls, t) == []
    ensures Halted(r, t) ==> RunsSince(Marked(r, at, |calls|), calls, t) == RunsSince(r, calls, t)
  {
    var i, q := |r.handled|, Marked(r, at, |calls|);
    assert forall k :: 0 <= k < i ==> q.handled[k] == r.handled[k];
    if EndsNow(r.posted, i) {
      LastUserIs(r.posted, r.posted[i].timer, i);
    }
    assert calls[|calls|..] == [];
  }

  /** The message in hand is handled.  Its timer is out of the daemon's hands then if that puts it to rest. */
  lemma HaltedMark(r: Record, queue: seq<Command>, claimed: set<TimerId>, after: set<TimerId>, calls: seq<Call>, at: nat)
    requires HaltedOk(r, queue, claimed, calls) && r.taken == |r.handled| + 1 <= |r.posted| && queue == r.posted[r.taken..]
    requires after <= claimed
    requires Ends(r.posted[|r.handled|].kind) ==> r.posted[|r.handled|].timer !in after
    ensures HaltedOk(Marked(r, at, |calls|), queue, after, calls)
  {
    hide Pending, Halted, RunsSince;
    var i := |r.handled|;
    NothingBehind(r.posted, r.taken, r.posted[i].timer);
    forall t | Halted(Marked(r, at, |calls|), t)
      ensures t !in after && Pending(queue, t) == [] && RunsSince(Marked(r, at, |calls|), calls, t) == []
    {
      HandleRest(r, at, calls, t);
    }
  }

  /** Rest lasts: it is ended by a later user command for the timer only. */
  lemma HaltedOn(r: Record, q: Record, t: TimerId)
    requires Halted(r, t) && Extends(r, q) && LastUser(q.posted, t) == LastUser(r.posted, t)
    ensures Halted(q, t)
  {
    assert forall j :: 0 <= j < |r.posted| ==> q.posted[j] == r.posted[j];
  }

  /** Whether its timer counts as started from here on: the command makes it active, and nothing is
      queued behind it. */
  predicate BeginsNow(posted: seq<Command>, i: nat)
    requires i < |posted|
  {
    Begins(posted[i].kind) && NoneFor(posted, i + 1, |posted|, posted[i].timer)
  }

  lemma NothingBehind(posted: seq<Command>, from: nat, t: TimerId)
    requires from <= |posted|
    ensures Pending(posted[from..], t) == [] <==> NoneFor(posted, from, |posted|, t)
  {
    PendingMembers(posted[from..], t);
    if Pending(posted[from..], t) == [] {
      forall j | from <= j < |posted| ensures posted[j].timer != t {
        assert posted[from..][j - from] == posted[j];
        assert posted[j] in posted[from..];
      }
    } else {
      var m := Pending(posted[from..], t)[0];
      assert m in Pending(posted[from..], t);
      var k :| 0 <= k < |posted[from..]| && posted[from..][k] == m;
      assert posted[from + k].timer == t;
    }
  }

  /** The record once the message that was taken is handled. */
  function Marked(r: Record, at: nat, calls: nat): Record {
    r.(handled := r.handled + [Handling(at, |r.posted|, calls)])
  }

  /** What handling one message changes for a timer. */
  lemma HandleOne(r: Record, at: nat, calls: nat, t: TimerId)
    requires |r.handled| < |r.posted|
    requires forall l :: l in r.lost ==> l.before <= |r.handled|
    ensures var i := |r.handled|;
            LeftAlone(Marked(r, at, calls), t) <==>
              ((t == r.posted[i].timer && BeginsNow(r.posted, i)) || LeftAlone(r, t))
    ensures BeginsNow(r.posted, |r.handled|) ==> LastUser(r.posted, r.posted[|r.handled|].timer) == |r.handled|
  {
    var i := |r.handled|;
    if BeginsNow(r.posted, i) {
      LastUserIs(r.posted, r.posted[i].timer, i);
    }
  }

  lemma HandleOthers(r: Record, at: nat, calls: seq<Call>, t: TimerId)
    requires |r.handled| < |r.posted|
    ensures LeftAlone(r, t) ==>
      && BegunAt(Marked(r, at, |calls|), t) == BegunAt(r, t)
      && RunsSince(Marked(r, at, |calls|), calls, t) == RunsSince(r, calls, t)
      && LastUser(r.posted, t) < |r.handled|
  {
  }

  lemma HandleNew(r: Record, at: nat, calls: seq<Call>)
    requires |r.handled| < |r.posted| && BeginsNow(r.posted, |r.handled|)
    ensures var m, q := r.posted[|r.handled|], Marked(r, at, |calls|);
            && LastUser(r.posted, m.timer) == |r.handled|
            && BegunAt(q, m.timer) == (if m.kind == ChangePeriod then at else m.sentAt)
            && RunsSince(q, calls, m.timer) == []
  {
    LastUserIs(r.posted, r.posted[|r.handled|].timer, |r.handled|);
    assert calls[|calls|..] == [];
  }

  lemma HandlingsMore(r: Record, at: nat, calls: nat)
    requires |r.handled| < r.taken == |r.handled| + 1 <= |r.posted| && HandlingsOk(r, calls)
    requires NothingElse(r, |r.handled|)
    requires |r.handled| in r.idle ==> IsUser(r.posted[|r.handled|].kind)
    ensures HandlingsOk(Marked(r, at, calls), calls)
  {
    var i, q := |r.handled|, Marked(r, at, calls);
    NothingBehind(r.posted, i + 1, r.posted[i].timer);
    forall k | 0 <= k < |q.handled| ensures HandlingOk(q, q.handled[k], k, calls) {
      if k < i {
        assert HandlingOk(r, r.handled[k], k, calls);
      } else if i in r.idle && OnlyUser(r.posted, i, |r.posted|) {
        LastUserIs(r.posted, r.posted[i].timer, i);
      }
    }
  }

  /** Nothing is queued behind message `i` if that one found its timer idle and is the last user command. */
  predicate NothingElse(r: Record, i: nat)
    requires i < |r.posted|
  {
    var t := r.posted[i].timer;
    i in r.idle && LastUser(r.posted, t) == i ==> NoneFor(r.posted, i + 1, |r.posted|, t)
  }

  /** The message that was taken is handled now. */
  lemma Handle(r: Record, queue: seq<Command>, start: map<TimerId, nat>, fired: map<TimerId, seq<Call>>,
               calls: seq<Call>, at: nat)
    requires HistoryOk(r, queue, start, fired, calls)
    requires r.taken == |r.handled| + 1 && NothingElse(r, |r.handled|)
    ensures var i, q := |r.handled|, Marked(r, at, |calls|);
            var m := r.posted[i];
            if BeginsNow(r.posted, i) then
              HistoryOk(q, queue, start[m.timer := if m.kind == ChangePeriod then at else m.sentAt], fired[m.timer := []], calls)
            else HistoryOk(q, queue, start, fired, calls)
  {
    hide LeftAlone, BegunAt, RunsSince, HandlingsOk, BeginsNow, NothingElse;
    var i, q := |r.handled|, Marked(r, at, |calls|);
    var m := r.posted[i];
    HandlingsMore(r, at, |calls|);
    forall t
      ensures LeftAlone(q, t) <==> ((t == m.timer && BeginsNow(r.posted, i)) || LeftAlone(r, t))
      ensures LeftAlone(r, t) ==> BegunAt(q, t) == BegunAt(r, t) && RunsSince(q, calls, t) == RunsSince(r, calls, t)
    {
      HandleOne(r, at, |calls|, t);
      HandleOthers(r, at, calls, t);
    }
    if BeginsNow(r.posted, i) {
      HandleNew(r, at, calls);
      HandleOthers(r, at, calls, m.timer);
    }
  }

  /** A restart that is accepted while the timer of message `i` is in the daemon's hands is for another
      timer, so it is not queued behind that message. */
  lemma StillNothingElse(r: Record, q: Record, i: nat)
    requires Grew(r, q) && i < |r.posted| && OwnNot(r, q, {r.posted[i].timer}) && NothingElse(r, i)
    ensures i < |q.posted| && q.posted[i] == r.posted[i] && NothingElse(q, i)
    ensures q.taken == r.taken && q.handled == r.handled
  {
    assert forall j :: 0 <= j < |r.posted| ==> q.posted[j] == r.posted[j];
    var t := r.posted[i].timer;
    if i in q.idle && LastUser(q.posted, t) == i {
      LastUserIs(r.posted, t, i);
    }
  }

  /** A command that found its timer idle is obeyed once it is handled, if it is the last one: a stop puts the
      timer to rest, and a start begins a schedule if no restart is lost after it. */
  lemma IdleObeyed(r: Record, queue: seq<Command>, start: map<TimerId, nat>, fired: map<TimerId, seq<Call>>,
                   calls: seq<Call>, t: TimerId)
    requires HistoryOk(r, queue, start, fired, calls)
    requires var i := LastUser(r.posted, t); 0 <= i < |r.handled| && i in r.idle
    ensures var i := LastUser(r.posted, t);
            && (Begins(r.posted[i].kind) && NoneLost(r.lost, i, t) ==> LeftAlone(r, t))
            && (Ends(r.posted[i].kind) ==> Halted(r, t))
  {
    var i := LastUser(r.posted, t);
    assert HandlingOk(r, r.handled[i], i, |calls|);
  }

  /** A restart behind a command that is still to be handled: when that has been handled, its timer does not
      count as obeying it. */
  lemma Overtaken(r: Record, q: Record, i: nat, j: nat)
    requires Extends(r, q) && |r.handled| <= i < j < |r.posted| && r.posted[i].timer == r.posted[j].timer
    requires i < |q.handled| && LastUser(q.posted, r.posted[i].timer) == i
    ensures !LeftAlone(q, r.posted[i].timer) && !Halted(q, r.posted[i].timer)
  {
    assert q.posted[j] == r.posted[j];
  }

  lemma {:induction false} PendingTwo(queue: seq<Command>, t: TimerId, a: nat, b: nat)
    requires a < b < |queue| && queue[a].timer == t && queue[b].timer == t
    ensures |Pending(queue, t)| >= 2
  {
    if a > 0 {
      PendingTwo(queue[1..], t, a - 1, b - 1);
    } else {
      PendingMembers(queue[1..], t);
      assert queue[1..][b - 1] == queue[b];
      assert queue[b] in Pending(queue[1..], t);
    }
  }

  lemma LeftAloneIf(r: Record, t: TimerId)
    requires var i := LastUser(r.posted, t);
             && 0 <= i < |r.handled| && Begins(r.posted[i].kind) && NoneLost(r.lost, i, t)
             && r.handled[i].seen <= |r.posted| && NoneFor(r.posted, i + 1, r.handled[i].seen, t)
    ensures LeftAlone(r, t)
  {
  }

  lemma RestartLast(r: Record, t: TimerId, i: nat, due: nat)
    requires i == |r.handled| - 1 && NoneLost(r.lost, i, t)
    requires RestartSent(r, r.handled[i].seen, Command(StartDontTrace, t, Stored(due), due))
    ensures |r.posted| > r.handled[i].seen && r.posted[|r.posted| - 1].timer == t
  {
    assert r.lost != [] ==> r.lost[|r.lost| - 1] in r.lost;
  }

  /** A restart that was just sent stands behind everything that was queued before it. */
  lemma SentBehind(r: Record, queue: seq<Command>, q: Record, restart: Command)
    requires |queue| < QUEUE_LENGTH && Grew(Restarted(r, queue, restart), q)
    requires r.taken <= |r.posted| && queue == r.posted[r.taken..]
    ensures q.taken == r.taken && |q.posted| > |r.posted| && q.posted[|r.posted|] == restart
    ensures q.posted[q.taken..][|queue|] == restart
  {
    assert Restarted(r, queue, restart).posted[|r.posted|] == restart;
  }

  /** The message that is next when `ahead` messages have been taken. */
  lemma InLine(r: Record, q: Record, ahead: nat)
    requires Extends(r, q) && r.taken + ahead < |r.posted| && q.taken == r.taken + ahead
    ensures q.taken < |q.posted| && q.posted[q.taken] == r.posted[r.taken + ahead]
  {
  }

  lemma CommandedIdle(r: Record, queue: seq<Command>, claimed: set<TimerId>, c: Command)
    requires c.timer !in claimed && Pending(queue, c.timer) == []
    ensures var q := Commanded(r, queue, claimed, c);
            |r.posted| in q.idle && |q.posted| == |r.posted| + 1 && q.posted[|r.posted|] == c
  {
  }

  lemma ExtendsPosted(r: Record, q: Record, i: nat)
    requires Extends(r, q) && i < |r.posted|
    ensures i < |q.posted| && q.posted[i] == r.posted[i] && (i in q.idle <==> i in r.idle)
  {
  }
}
