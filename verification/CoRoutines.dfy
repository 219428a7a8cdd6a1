/** The co-routine scheduler. */
module CoRoutines {
  import opened Sequences
  import opened Ticks
  import opened ListModel
  import opened RoundRobin
  import Lists

  /** The list that holds the event item of a co-routine. */
  datatype EventPlace = OnList(list: nat) | Pending

  /** What happens to a co-routine: it asks to wait, at a true tick, and the wait ends with its time
      or with its event. */
  datatype DelayEvent =
    | Began(at: nat, ticks: Tick, onEvent: bool)
    | TimedOut(at: nat)
    | Woken(at: nat)

  type History = map<CoId, seq<DelayEvent>>

  // ------------------------------------------------ The invariants, on values

  /** Each ready list holds co-routines of its own priority, and those above `top` are empty. */
  ghost predicate ReadyOk(levels: nat, priority: map<CoId, nat>, ready: seq<seq<CoId>>, top: nat) {
    && |ready| == levels && top < levels
    && (forall p :: 0 <= p < levels ==> Distinct(ready[p]))
    && (forall p, c :: 0 <= p < levels && c in ready[p] ==> c in priority && priority[c] == p)
    && (forall p :: top < p < levels ==> ready[p] == [])
  }

  ghost predicate DelaysOk(delayed: seq<Entry>, overflow: seq<Entry>) {
    && Sorted(delayed) && DistinctOwners(delayed)
    && Sorted(overflow) && DistinctOwners(overflow)
    && Owners(delayed) !! Owners(overflow)
  }

  /** The entries of one list are due in one epoch, not before `from`, and carry the word of the due tick. */
  ghost predicate DueIn(s: seq<Entry>, due: map<CoId, nat>, epoch: nat, from: nat) {
    forall e :: e in s ==>
      e.owner in due && e.value == Stored(due[e.owner]) && Epoch(due[e.owner]) == epoch && from <= due[e.owner]
  }

  /** Every co-routine is on its ready list or on a delay list, except those in transit. */
  ghost predicate PlacesOk(levels: nat, priority: map<CoId, nat>, ready: seq<seq<CoId>>, waiting: set<CoId>,
                           transit: set<CoId>) {
    && |ready| == levels
    && waiting <= priority.Keys && transit <= priority.Keys && waiting !! transit
    && forall c :: c in priority ==>
         priority[c] < levels && (c in ready[priority[c]] <==> c !in waiting && c !in transit)
  }

  /** An event item is on the list that its container says, and its co-routine is delayed as well. */
  ghost predicate EventsOk(levels: nat, priority: map<CoId, nat>, events: seq<seq<Entry>>, pending: seq<CoId>,
                           event: map<CoId, EventPlace>, waiting: set<CoId>) {
    && event.Keys <= waiting
    && Distinct(pending)
    && (forall c :: c in pending <==> c in event && event[c] == Pending)
    && (forall i :: 0 <= i < |events| ==> EventListOk(levels, priority, events[i], event, i))
    && (forall c :: c in event && event[c].OnList? ==> event[c].list < |events|)
  }

  ghost predicate EventListOk(levels: nat, priority: map<CoId, nat>, list: seq<Entry>, event: map<CoId, EventPlace>,
                              i: nat) {
    && Sorted(list) && DistinctOwners(list)
    && (forall c :: c in Owners(list) <==> c in event && event[c] == OnList(i))
    && (forall e :: e in list ==> e.owner in priority && e.value == levels - priority[e.owner])
  }

  ghost predicate HighestOf(list: seq<Entry>, priority: map<CoId, nat>, c: CoId) {
    c in priority && forall e :: e in list ==> e.owner in priority && priority[e.owner] <= priority[c]
  }

  /** Event lists are in priority order: the head has the highest priority. */
  lemma HeadHasTopPriority(levels: nat, priority: map<CoId, nat>, list: seq<Entry>, event: map<CoId, EventPlace>,
                           i: nat)
    requires EventListOk(levels, priority, list, event, i) && list != []
    ensures HighestOf(list, priority, list[0].owner)
  {
    assert list[0] in list;
    forall e | e in list ensures list[0].value <= e.value {
      var k :| 0 <= k < |list| && list[k] == e;
    }
  }

  /** Where a delay is filed: the wrapped sum is smaller than the tick word exactly when the due tick
      lies in the next epoch. */
  lemma DelayPlacement(clock: nat, ticks: Tick)
    ensures var word := Plus(Stored(clock), ticks);
            && word == Stored(clock + ticks)
            && (word < Stored(clock) <==> Epoch(clock + ticks) == Epoch(clock) + 1)
            && (word >= Stored(clock) <==> Epoch(clock + ticks) == Epoch(clock))
  {
    PlusStored(clock, ticks);
    WrapIsVisible(clock, clock + ticks);
  }

  // ------------------------------------------------------ The history of delays

  /** The true time that the filed word stands for.  A delay of no ticks asked for at the last tick
      before the wrap is filed on the list that is then swapped out; that list comes to its word two
      whole wraps later. */
  function WakeTime(at: nat, ticks: Tick): nat {
    if ticks == 0 && Stored(at) == MAX_DELAY then at + 2 * TICKS else at + ticks
  }

  /** The true tick at which a wait for `ticks` ticks is over: after as many ticks, but not before
      the next one, and two wraps late in that one case. */
  function EndOf(at: nat, ticks: Tick): nat {
    if ticks == 0 && Stored(at) != MAX_DELAY then at + 1 else WakeTime(at, ticks)
  }

  /** The epoch whose delays the current list holds. */
  function ListEpoch(clock: nat): nat {
    if Stored(clock) == MAX_DELAY then Epoch(clock) + 2 else Epoch(clock)
  }

  lemma WakeEpoch(clock: nat, ticks: Tick)
    ensures Stored(WakeTime(clock, ticks)) == Stored(clock + ticks) && clock <= WakeTime(clock, ticks)
    ensures Epoch(WakeTime(clock, ticks))
         == if Plus(Stored(clock), ticks) < Stored(clock) then Epoch(clock) + 1 else ListEpoch(clock)
  {
    DelayPlacement(clock, ticks);
    StoredParts(clock);
    StoredParts(clock + ticks);
  }

  function Past(history: History, c: CoId): seq<DelayEvent> {
    if c in history then history[c] else []
  }

  function Recorded(history: History, c: CoId, event: DelayEvent): History {
    history[c := Past(history, c) + [event]]
  }

  predicate Open(past: seq<DelayEvent>) {
    past != [] && past[|past| - 1].Began?
  }

  /** A wait begins when no other is open.  It times out at exactly its end, or its event ends it
      before. */
  predicate InPlace(past: seq<DelayEvent>, k: nat)
    requires k < |past|
  {
    if past[k].Began? then k > 0 ==> !past[k - 1].Began? && past[k - 1].at <= past[k].at
    else
      && k > 0 && past[k - 1].Began?
      && var end := EndOf(past[k - 1].at, past[k - 1].ticks);
         if past[k].TimedOut? then past[k].at == end
         else past[k - 1].onEvent && past[k - 1].at <= past[k].at < end
  }

  ghost predicate Account(past: seq<DelayEvent>, clock: nat) {
    forall k :: 0 <= k < |past| ==> InPlace(past, k) && past[k].at <= clock
  }

  /** The history so far: exactly the co-routines on the delay lists have an open wait, which is not
      over yet, and only those that asked for an event can be woken by one. */
  ghost predicate HistoryOk(history: History, waiting: set<CoId>, onEvent: set<CoId>, due: map<CoId, nat>, clock: nat) {
    && (forall c :: Account(Past(history, c), clock))
    && (forall c :: c in waiting <==> Open(Past(history, c)))
    && (forall c :: c in waiting ==> c in due && OpenOk(Past(history, c), c in onEvent, due[c], clock))
  }

  predicate OpenOk(past: seq<DelayEvent>, onEvent: bool, due: nat, clock: nat) {
    && Open(past)
    && var began := past[|past| - 1];
       && began.at <= clock < EndOf(began.at, began.ticks) && due == WakeTime(began.at, began.ticks)
       && (onEvent ==> began.onEvent)
  }

  /** A history only grows. */
  ghost predicate Grown(before: History, after: History) {
    forall c :: Past(before, c) <= Past(after, c)
  }

  /** The co-routines in `left` have met with that event, and nobody else with anything. */
  ghost predicate Logged(before: History, after: History, left: set<CoId>, event: DelayEvent) {
    forall c :: Past(after, c) == Past(before, c) + (if c in left then [event] else [])
  }

  lemma OneLogged(before: History, now: History, left: set<CoId>, c: CoId, event: DelayEvent)
    requires Logged(before, now, left, event) && c !in left
    ensures Logged(before, Recorded(now, c, event), left + {c}, event)
  {
  }

  lemma AccountNext(past: seq<DelayEvent>, event: DelayEvent, from: nat, to: nat)
    requires Account(past, from) && InPlace(past + [event], |past|) && from <= to && event.at <= to
    ensures Account(past + [event], to)
  {
    var after := past + [event];
    forall k | 0 <= k < |after| ensures InPlace(after, k) {
      if k < |past| {
        assert InPlace(past, k);
      }
    }
  }

  lemma AccountBegun(past: seq<DelayEvent>, event: DelayEvent, clock: nat)
    requires Account(past, clock) && !Open(past) && event.Began? && event.at == clock
    ensures Account(past + [event], clock)
    ensures clock < EndOf(event.at, event.ticks)
  {
    assert past != [] ==> InPlace(past, |past| - 1);
    AccountNext(past, event, clock, clock);
  }

  /** An open wait at tick `to`: it is still open, or it has run out at its own end. */
  lemma OneRanOut(past: seq<DelayEvent>, onEvent: bool, due: nat, from: nat, to: nat)
    requires OpenOk(past, onEvent, due, from) && Account(past, from) && from <= due && from <= to
    ensures to < EndTick(due, from) ==> OpenOk(past, onEvent, due, to)
    ensures EndTick(due, from) <= to ==> Account(past + [TimedOut(EndTick(due, from))], to)
  {
    if EndTick(due, from) <= to {
      AccountNext(past, TimedOut(EndTick(due, from)), from, to);
    }
  }

  lemma AccountLater(past: seq<DelayEvent>, from: nat, to: nat)
    requires Account(past, from) && from <= to
    ensures Account(past, to)
  {
  }

  lemma HistoryBegan(history: History, waiting: set<CoId>, onEvent: set<CoId>, due: map<CoId, nat>, clock: nat,
                     c: CoId, ticks: Tick, withEvent: bool)
    requires HistoryOk(history, waiting, onEvent, due, clock) && c !in waiting && onEvent <= waiting
    ensures var after := Recorded(history, c, Began(clock, ticks, withEvent));
            && HistoryOk(after, waiting + {c}, if withEvent then onEvent + {c} else onEvent,
                         due[c := WakeTime(clock, ticks)], clock)
            && Grown(history, after)
  {
    hide Account;
    var event := Began(clock, ticks, withEvent);
    assert forall x :: x != c ==> Past(Recorded(history, c, event), x) == Past(history, x);
    AccountBegun(Past(history, c), event, clock);
  }

  lemma WokenInPlace(past: seq<DelayEvent>, due: nat, clock: nat)
    requires OpenOk(past, true, due, clock) && Account(past, clock)
    ensures Account(past + [Woken(clock)], clock)
  {
    AccountNext(past, Woken(clock), clock, clock);
  }

  /** Waits that their events ended are recorded. */
  lemma HistoryWoken(before: History, after: History, waiting: set<CoId>, still: set<CoId>, onEvent: set<CoId>,
                     stillOn: set<CoId>, due: map<CoId, nat>, clock: nat)
    requires HistoryOk(before, waiting, onEvent, due, clock)
    requires still <= waiting && waiting - still <= onEvent && stillOn <= onEvent
    requires Logged(before, after, waiting - still, Woken(clock))
    ensures HistoryOk(after, still, stillOn, due, clock) && Grown(before, after)
  {
    hide Account, OpenOk;
    forall c
      ensures Account(Past(after, c), clock)
      ensures c in still <==> Open(Past(after, c))
      ensures c in still ==> OpenOk(Past(after, c), c in stillOn, due[c], clock)
    {
      assert Past(before, c) + [] == Past(before, c);
      if c in waiting - still {
        WokenInPlace(Past(before, c), due[c], clock);
      } else if c in still {
        FewerEvents(Past(before, c), c in onEvent, c in stillOn, due[c], clock);
      }
    }
  }

  /** Waits that ran out are recorded, each at its own end. */
  lemma HistoryRanOut(before: History, after: History, waiting: set<CoId>, still: set<CoId>, onEvent: set<CoId>,
                      stillOn: set<CoId>, due: map<CoId, nat>, from: nat, to: nat)
    requires HistoryOk(before, waiting, onEvent, due, from) && stillOn <= onEvent && from <= to
    requires RanOut(waiting, still, before, after, due, from, to)
    ensures HistoryOk(after, still, stillOn, due, to) && Grown(before, after)
  {
    hide Account, OpenOk;
    forall c
      ensures Account(Past(after, c), to)
      ensures c in still <==> Open(Past(after, c))
      ensures c in still ==> OpenOk(Past(after, c), c in onEvent, due[c], to)
    {
      assert Past(before, c) + [] == Past(before, c);
      AccountLater(Past(before, c), from, to);
      if c in waiting {
        OneRanOut(Past(before, c), c in onEvent, due[c], from, to);
      }
    }
    forall c | c in still ensures OpenOk(Past(after, c), c in stillOn, due[c], to) {
      FewerEvents(Past(after, c), c in onEvent, c in stillOn, due[c], to);
    }
  }

  lemma FewerEvents(past: seq<DelayEvent>, onEvent: bool, stillOn: bool, due: nat, clock: nat)
    requires OpenOk(past, onEvent, due, clock) && (stillOn ==> onEvent)
    ensures OpenOk(past, stillOn, due, clock)
  {
  }

  lemma OneWoken(before: History, now: History, waiting: set<CoId>, still: set<CoId>, c: CoId, clock: nat)
    requires Logged(before, now, waiting - still, Woken(clock)) && c in still && still <= waiting
    ensures Logged(before, Recorded(now, c, Woken(clock)), waiting - (still - {c}), Woken(clock))
  {
    OneLogged(before, now, waiting - still, c, Woken(clock));
    assert waiting - (still - {c}) == waiting - still + {c};
  }

  /** A wait for time alone: at its end, and not before, it has timed out at exactly that tick. */
  lemma DelayEndsOnTime(history: History, waiting: set<CoId>, onEvent: set<CoId>, due: map<CoId, nat>, clock: nat,
                        c: CoId, k: nat)
    requires HistoryOk(history, waiting, onEvent, due, clock)
    requires k < |Past(history, c)| && Past(history, c)[k].Began? && !Past(history, c)[k].onEvent
    ensures var past := Past(history, c);
            var end := EndOf(past[k].at, past[k].ticks);
            && (k + 1 < |past| <==> end <= clock)
            && (k + 1 < |past| ==> past[k + 1] == TimedOut(end))
  {
    var past := Past(history, c);
    assert Account(past, clock);
    if k + 1 < |past| {
      assert InPlace(past, k + 1);
    } else {
      assert Open(past) && c in waiting;
      assert OpenOk(past, c in onEvent, due[c], clock);
    }
  }

  /** A wait lasts as long as was asked for, but at least one tick, in all cases but one. */
  lemma EndIsAsAsked(at: nat, ticks: Tick)
    ensures EndOf(at, ticks) == at + (if ticks == 0 then 1 else ticks) <==> ticks > 0 || Stored(at) != MAX_DELAY
    ensures ticks == 0 && Stored(at) == MAX_DELAY ==> EndOf(at, ticks) == at + 2 * TICKS
  {
  }

  // ---------------------------------------------- What one list operation does

  function Higher(a: nat, b: nat): nat {
    if a > b then a else b
  }

  function Peers(priority: map<CoId, nat>, p: nat): set<CoId> {
    set c | c in priority && priority[c] == p
  }

  /** Each index is on its list, and nobody has been passed over too often. */
  ghost predicate FairOk(levels: nat, priority: map<CoId, nat>, ready: seq<seq<CoId>>, index: seq<nat>, picks: seq<Pick>) {
    && |ready| == levels && |index| == levels
    && (forall p :: 0 <= p < levels ==> ListFair(ready[p], index[p], picks, |Peers(priority, p)|))
    && (forall c :: c in priority && priority[c] < levels && c !in ready[priority[c]] ==> Passed(picks, c) == 0)
    && (forall c :: c !in priority ==> Passed(picks, c) == 0)
  }

  lemma {:induction false} DistinctCount(s: seq<CoId>, all: set<CoId>)
    requires Distinct(s) && forall c :: c in s ==> c in all
    ensures |s| <= |all|
  {
    if s != [] {
      assert s == [s[0]] + s[1..];
      DistinctCount(s[1..], all - {s[0]});
    }
  }

  lemma FairAdded(levels: nat, priority: map<CoId, nat>, ready: seq<seq<CoId>>, top: nat, waiting: set<CoId>,
                  transit: set<CoId>, index: seq<nat>, picks: seq<Pick>, c: CoId)
    requires ReadyOk(levels, priority, ready, top) && PlacesOk(levels, priority, ready, waiting, transit) && c in transit
    requires FairOk(levels, priority, ready, index, picks)
    ensures var p := priority[c];
            && p < levels && index[p] <= |ready[p]|
            && FairOk(levels, priority, ready[p := Joined(ready[p], index[p], c)], index[p := JoinedAt(index[p])], picks)
  {
    hide Passed, ListFair;
    var p := priority[c];
    OnItsList(ready[p], index[p], picks, |Peers(priority, p)|);
    JoinedMembers(ready[p], index[p], c);
    DistinctCount(Joined(ready[p], index[p], c), Peers(priority, p));
    JoinFair(ready[p], index[p], picks, |Peers(priority, p)|, c);
  }

  lemma OnItsList(list: seq<CoId>, at: nat, picks: seq<Pick>, n: nat)
    requires ListFair(list, at, picks, n)
    ensures at <= |list| <= n
  {
  }

  lemma FairRemoved(levels: nat, priority: map<CoId, nat>, ready: seq<seq<CoId>>, index: seq<nat>, picks: seq<Pick>,
                    p: nat, k: nat)
    requires FairOk(levels, priority, ready, index, picks) && p < levels && k < |ready[p]| && Distinct(ready[p])
    requires Passed(picks, ready[p][k]) == 0
    ensures FairOk(levels, priority, ready[p := Removed(ready[p], ready[p][k])], index[p := LeftAt(index[p], k)], picks)
  {
    hide Passed, ListFair;
    RemovedAt(ready[p], k);
    RemovedMembers(ready[p], ready[p][k]);
    LeaveFair(ready[p], index[p], picks, |Peers(priority, p)|, k);
  }

  lemma FairPicked(levels: nat, priority: map<CoId, nat>, ready: seq<seq<CoId>>, top: nat, waiting: set<CoId>,
                   index: seq<nat>, picks: seq<Pick>, pick: Pick)
    requires ReadyOk(levels, priority, ready, top) && PlacesOk(levels, priority, ready, waiting, {})
    requires FairOk(levels, priority, ready, index, picks) && ready[top] != []
    requires pick.co == ready[top][NextAt(index[top], |ready[top]|) - 1]
    requires pick.ready == map c | c in priority && c !in waiting :: priority[c]
    ensures FairOk(levels, priority, ready, index[top := NextAt(index[top], |ready[top]|)], picks + [pick])
  {
    hide Passed, ListFair;
    assert pick.co in ready[top] && pick.co in priority && pick.co !in waiting;
    forall p | 0 <= p < levels
      ensures ListFair(ready[p], index[top := NextAt(index[top], |ready[top]|)][p], picks + [pick], |Peers(priority, p)|)
    {
      assert forall c :: c in ready[p] ==> c in priority && priority[c] == p && c !in waiting;
      if p == top {
        PickFair(ready[p], index[p], picks, |Peers(priority, p)|, pick);
      } else {
        OtherFair(ready[p], index[p], picks, |Peers(priority, p)|, pick);
      }
    }
    forall c | c !in priority || c !in ready[priority[c]] ensures Passed(picks + [pick], c) == 0 {
      PassedNext(picks, pick, c);
    }
  }

  lemma FairCreated(levels: nat, priority: map<CoId, nat>, ready: seq<seq<CoId>>, index: seq<nat>, picks: seq<Pick>,
                    c: CoId, p: nat)
    requires FairOk(levels, priority, ready, index, picks) && c !in priority && p < levels
    ensures FairOk(levels, priority[c := p], ready, index, picks)
  {
    hide Passed, ListFair;
    forall q | 0 <= q < levels ensures ListFair(ready[q], index[q], picks, |Peers(priority[c := p], q)|) {
      assert Peers(priority, q) <= Peers(priority[c := p], q);
      MorePeers(Peers(priority, q), Peers(priority[c := p], q));
      MoreFair(ready[q], index[q], picks, |Peers(priority, q)|, |Peers(priority[c := p], q)|);
    }
  }

  lemma {:induction false} MorePeers(a: set<CoId>, b: set<CoId>)
    requires a <= b
    ensures |a| <= |b|
  {
    if a != {} {
      var c :| c in a;
      MorePeers(a - {c}, b - {c});
    }
  }

  lemma ReadyAdded(levels: nat, priority: map<CoId, nat>, ready: seq<seq<CoId>>, top: nat, waiting: set<CoId>,
                   transit: set<CoId>, at: nat, c: CoId)
    requires ReadyOk(levels, priority, ready, top) && PlacesOk(levels, priority, ready, waiting, transit) && c in transit
    requires at <= |ready[priority[c]]|
    ensures var p := priority[c];
            var after := ready[p := Joined(ready[p], at, c)];
            && ReadyOk(levels, priority, after, Higher(p, top))
            && PlacesOk(levels, priority, after, waiting, transit - {c})
  {
    var p := priority[c];
    JoinedMembers(ready[p], at, c);
    var after := ready[p := Joined(ready[p], at, c)];
    forall x | x in priority ensures x in after[priority[x]] <==> x in ready[priority[x]] || x == c {
    }
  }

  lemma ReadyRemoved(levels: nat, priority: map<CoId, nat>, ready: seq<seq<CoId>>, top: nat, waiting: set<CoId>, c: CoId)
    requires ReadyOk(levels, priority, ready, top) && PlacesOk(levels, priority, ready, waiting, {})
    requires c in priority && c !in waiting
    ensures var p := priority[c];
            var after := ready[p := Removed(ready[p], c)];
            && ReadyOk(levels, priority, after, top)
            && PlacesOk(levels, priority, after, waiting, {c})
  {
    RemovedMembers(ready[priority[c]], c);
  }

  /** A co-routine in transit goes on a delay list, or leaves one. */
  lemma PlacesMoved(levels: nat, priority: map<CoId, nat>, ready: seq<seq<CoId>>, waiting: set<CoId>,
                    transit: set<CoId>, c: CoId)
    requires PlacesOk(levels, priority, ready, waiting, transit)
    ensures c in transit ==> PlacesOk(levels, priority, ready, waiting + {c}, transit - {c})
    ensures c in waiting ==> PlacesOk(levels, priority, ready, waiting - {c}, transit + {c})
  {
  }

  /** The due times stay right when a delay that ends at `d` is filed. */
  lemma FiledInTime(list: seq<Entry>, other: seq<Entry>, e: Entry, due: map<CoId, nat>, d: nat, epoch: nat, from: nat)
    requires e.owner !in Owners(list) && e.owner !in Owners(other)
    requires DueIn(list, due, Epoch(d), from) && DueIn(other, due, epoch, from) && from <= d && e.value == Stored(d)
    ensures DueIn(Inserted(list, e), due[e.owner := d], Epoch(d), from)
    ensures DueIn(other, due[e.owner := d], epoch, from)
  {
    DueElsewhere(list, due, Epoch(d), from, e.owner, d);
    DueElsewhere(other, due, epoch, from, e.owner, d);
    InsertedMembers(list, e);
  }

  lemma DueElsewhere(list: seq<Entry>, due: map<CoId, nat>, epoch: nat, from: nat, c: CoId, d: nat)
    requires DueIn(list, due, epoch, from) && c !in Owners(list)
    ensures DueIn(list, due[c := d], epoch, from)
  {
    forall x | x in list ensures x.owner != c {
      assert x.owner in Owners(list);
    }
  }

  lemma DelayRemoved(list: seq<Entry>, c: CoId, due: map<CoId, nat>, epoch: nat, from: nat)
    requires Sorted(list) && DistinctOwners(list)
    ensures Sorted(Without(list, c)) && DistinctOwners(Without(list, c))
    ensures Owners(Without(list, c)) == Owners(list) - {c}
    ensures DueIn(list, due, epoch, from) ==> DueIn(Without(list, c), due, epoch, from)
  {
    WithoutMembers(list, c);
    WithoutSorted(list, c);
    WithoutDistinct(list, c);
  }

  /** The head of event list `i` moves to the pending list. */
  lemma EventWoken(levels: nat, priority: map<CoId, nat>, events: seq<seq<Entry>>, pending: seq<CoId>,
                   event: map<CoId, EventPlace>, waiting: set<CoId>, i: nat)
    requires EventsOk(levels, priority, events, pending, event, waiting)
    requires i < |events| && events[i] != []
    ensures var c := events[i][0].owner;
            && c in waiting && c in event && event[c] == OnList(i)
            && EventsOk(levels, priority, events[i := Without(events[i], c)], pending + [c], event[c := Pending], waiting)
  {
    var c := events[i][0].owner;
    assert events[i][0] in events[i];
    assert c in Owners(events[i]);
    assert EventListOk(levels, priority, events[i], event, i);
    var after, es := event[c := Pending], events[i := Without(events[i], c)];
    EventMoved(levels, priority, events, event, i, c, after, es);
    assert after.Keys == event.Keys;
    assert forall x :: x in pending + [c] <==> x in after && after[x] == Pending;
  }

  /** The item of `c` leaves event list `i`; the container of no other item changes. */
  lemma EventMoved(levels: nat, priority: map<CoId, nat>, events: seq<seq<Entry>>, event: map<CoId, EventPlace>,
                   i: nat, c: CoId, after: map<CoId, EventPlace>, es: seq<seq<Entry>>)
    requires forall k :: 0 <= k < |events| ==> EventListOk(levels, priority, events[k], event, k)
    requires i < |events| && c in event && event[c] == OnList(i)
    requires c !in after || after[c] == Pending
    requires forall x :: x != c ==> (x in after <==> x in event) && (x in event ==> after[x] == event[x])
    requires es == events[i := Without(events[i], c)]
    ensures forall k :: 0 <= k < |es| ==> EventListOk(levels, priority, es[k], after, k)
  {
    forall k | 0 <= k < |es| ensures EventListOk(levels, priority, es[k], after, k) {
      assert EventListOk(levels, priority, events[k], event, k);
      if k == i {
        DelayRemoved(events[i], c, map[], 0, 0);
        WithoutMembers(events[i], c);
      }
    }
  }

  /** The item of `c` leaves whatever list it is on. */
  lemma EventRemoved(levels: nat, priority: map<CoId, nat>, events: seq<seq<Entry>>, pending: seq<CoId>,
                     event: map<CoId, EventPlace>, waiting: set<CoId>, c: CoId)
    requires EventsOk(levels, priority, events, pending, event, waiting) && c in event
    ensures event[c].OnList? ==> event[c].list < |events|
    ensures var es := if event[c].OnList? then events[event[c].list := Without(events[event[c].list], c)] else events;
            var ps := if event[c].OnList? then pending else Removed(pending, c);
            EventsOk(levels, priority, es, ps, event - {c}, waiting - {c})
  {
    RemovedMembers(pending, c);
    if event[c].OnList? {
      var i := event[c].list;
      EventMoved(levels, priority, events, event, i, c, event - {c}, events[i := Without(events[i], c)]);
    }
  }

  /** A co-routine stays delayed while its event item goes. */
  lemma StillWaiting(levels: nat, priority: map<CoId, nat>, events: seq<seq<Entry>>, pending: seq<CoId>,
                     event: map<CoId, EventPlace>, waiting: set<CoId>, c: CoId)
    requires EventsOk(levels, priority, events, pending, event, waiting) && c in event
    ensures c in waiting && (event[c].OnList? ==> c !in pending)
    ensures forall es, ps :: EventsOk(levels, priority, es, ps, event - {c}, waiting - {c})
              ==> EventsOk(levels, priority, es, ps, event - {c}, waiting)
  {
  }

  /** A co-routine that does not wait for an event may leave the delay lists or join them. */
  lemma EventsElsewhere(levels: nat, priority: map<CoId, nat>, events: seq<seq<Entry>>, pending: seq<CoId>,
                        event: map<CoId, EventPlace>, waiting: set<CoId>, c: CoId)
    requires EventsOk(levels, priority, events, pending, event, waiting) && c !in event
    ensures EventsOk(levels, priority, events, pending, event, waiting - {c})
    ensures EventsOk(levels, priority, events, pending, event, waiting + {c})
  {
  }

  /** The item of a delayed co-routine goes on event list `i`, in priority order. */
  lemma EventInserted(levels: nat, priority: map<CoId, nat>, events: seq<seq<Entry>>, pending: seq<CoId>,
                      event: map<CoId, EventPlace>, waiting: set<CoId>, i: nat, e: Entry)
    requires EventsOk(levels, priority, events, pending, event, waiting)
    requires i < |events| && e.owner in waiting && e.owner !in event
    requires e.owner in priority && e.value == levels - priority[e.owner]
    ensures EventsOk(levels, priority, events[i := Inserted(events[i], e)], pending, event[e.owner := OnList(i)], waiting)
  {
    var es, after := events[i := Inserted(events[i], e)], event[e.owner := OnList(i)];
    forall k | 0 <= k < |es| ensures EventListOk(levels, priority, es[k], after, k) {
      assert EventListOk(levels, priority, events[k], event, k);
      if k == i {
        InsertedMembers(events[i], e);
        InsertedSorted(events[i], e);
        InsertedDistinct(events[i], e);
      }
    }
  }

  lemma DelaysSwap(list: seq<Entry>, other: seq<Entry>)
    requires DelaysOk(list, other)
    ensures DelaysOk(other, list) && Owners(list) + Owners(other) == Owners(other) + Owners(list)
  {
  }

  /** A co-routine in transit is filed on a delay list. */
  lemma Filed(levels: nat, priority: map<CoId, nat>, ready: seq<seq<CoId>>, events: seq<seq<Entry>>, pending: seq<CoId>,
              event: map<CoId, EventPlace>, list: seq<Entry>, other: seq<Entry>, e: Entry)
    requires DelaysOk(list, other)
    requires PlacesOk(levels, priority, ready, Owners(list) + Owners(other), {e.owner})
    requires EventsOk(levels, priority, events, pending, event, Owners(list) + Owners(other))
    ensures e.owner !in Owners(list) && e.owner !in Owners(other) && Inserted(list, e) != []
    ensures DelaysOk(Inserted(list, e), other)
    ensures Owners(Inserted(list, e)) == Owners(list) + {e.owner}
    ensures Owners(Inserted(list, e)) + Owners(other) == Owners(list) + Owners(other) + {e.owner}
    ensures PlacesOk(levels, priority, ready, Owners(Inserted(list, e)) + Owners(other), {})
    ensures EventsOk(levels, priority, events, pending, event, Owners(Inserted(list, e)) + Owners(other))
  {
    var waiting := Owners(list) + Owners(other);
    assert e.owner !in waiting;
    InsertedMembers(list, e);
    InsertedSorted(list, e);
    InsertedDistinct(list, e);
    hide Inserted;
    assert Owners(Inserted(list, e)) + Owners(other) == waiting + {e.owner};
    PlacesMoved(levels, priority, ready, waiting, {e.owner}, e.owner);
    assert {e.owner} - {e.owner} == {};
    EventsElsewhere(levels, priority, events, pending, event, waiting, e.owner);
  }

  // ------------------------------------------------------------ The scheduler

  type Levels = n: nat | 1 <= n < 0x1_0000_0000 witness 2

  class Scheduler {
    const levels: Levels

    var priority: map<CoId, nat>
    // The ready lists, and for each the place of its index: 0 for the end marker, k for the k-th item.
    var ready: seq<seq<CoId>>
    var index: seq<nat>
    var top: nat
    var delayed: seq<Entry>
    var overflow: seq<Entry>
    var events: seq<seq<Entry>>
    var pending: seq<CoId>
    var event: map<CoId, EventPlace>
    var current: CoId

    /** The true count of co-routine ticks; the kernel stores it modulo 2^32. */
    var clock: nat

    // The true time that each filed word stands for, what happened to each co-routine, the
    // scheduler's choices, and the co-routines whose functions were called.
    ghost var due: map<CoId, nat>
    ghost var history: History
    ghost var picks: seq<Pick>
    ghost var called: seq<CoId>

    ghost function Waiting(): set<CoId>
      reads `delayed, `overflow
    {
      Owners(delayed) + Owners(overflow)
    }

    ghost predicate Valid(transit: set<CoId>)
      reads `priority, `ready, `index, `top, `delayed, `overflow, `events, `pending, `event, `picks
    {
      && ReadyOk(levels, priority, ready, top)
      && DelaysOk(delayed, overflow)
      && PlacesOk(levels, priority, ready, Waiting(), transit)
      && EventsOk(levels, priority, events, pending, event, Waiting())
      && FairOk(levels, priority, ready, index, picks)
    }

    /** The current co-routine is the one that was called last. */
    ghost predicate Running()
      reads `current, `picks
    {
      picks != [] && picks[|picks| - 1].co == current
    }

    /** The current list holds delays of one epoch, the other one those of the next epoch. */
    ghost predicate Timely(epoch: nat, from: nat)
      reads `delayed, `overflow, `due, `clock
    {
      DueIn(delayed, due, epoch, from) && DueIn(overflow, due, Epoch(clock) + 1, from)
    }

    /** Between two ticks no delay has ended earlier, and the current list is for this epoch.  At the
        last tick before the wrap it is about to be swapped out, and is for the epoch after the next. */
    ghost predicate AtRest()
      reads `delayed, `overflow, `due, `clock
    {
      Timely(ListEpoch(clock), clock)
    }

    /** The history tells of each wait how it ended, and who still waits. */
    ghost predicate Accounted()
      reads `delayed, `overflow, `event, `due, `clock, `history
    {
      HistoryOk(history, Waiting(), event.Keys, due, clock)
    }

    /** Every choice was among the ready co-routines of the highest priority. */
    ghost predicate PicksOk()
      reads `picks
    {
      forall pick :: pick in picks ==> TopPick(pick)
    }

    /** Exactly the co-routines that were picked have been called, in that order. */
    ghost predicate PickedAreCalled()
      reads `picks, `called
    {
      |called| == |picks| && forall i :: 0 <= i < |picks| ==> called[i] == picks[i].co
    }

    ghost function ReadyNow(): map<CoId, nat>
      reads `priority, `delayed, `overflow
    {
      map c | c in priority && c !in Waiting() :: priority[c]
    }

    /** There is a current co-routine as soon as one has been created. */
    ghost predicate CurrentOk()
      reads `priority, `current
    {
      priority == map[] || current in priority
    }

    constructor (levels: Levels, eventLists: nat)
      ensures Valid({}) && AtRest() && CurrentOk() && this.levels == levels
      ensures priority == map[] && clock == 0 && |events| == eventLists
      ensures history == map[] && picks == [] && Accounted() && PicksOk() && PickedAreCalled()
    {
      this.levels := levels;
      priority, event, due, history, picks, called := map[], map[], map[], map[], [], [];
      ready, index := seq(levels, i => []), seq(levels, i => 0);
      top, clock, current := 0, 0, 0;
      delayed, overflow, pending := [], [], [];
      events := seq(eventLists, i => []);
    }

    twostate predicate LastInTurn(c: CoId)
      reads `priority, `ready, `index
      requires c in priority
    {
      var p := priority[c];
      && p < |ready| == |index| == |old(ready)| == |old(index)| && old(index)[p] <= |old(ready)[p]|
      && ready == old(ready)[p := Joined(old(ready)[p], old(index)[p], c)]
      && index == old(index)[p := JoinedAt(old(index)[p])] && index[p] <= |ready[p]|
      && var turn := Lists.Turn(old(ready)[p], old(index)[p]);
         Lists.Turn(ready[p], index[p])
         == if old(index)[p] == 0 then turn + [c] else turn[..|turn| - 1] + [c] + [turn[|turn| - 1]]
    }

    /** prvAddCoRoutineToReadyQueue: its turn comes after all others of its priority, but for the one that was
        picked last. */
    method AddToReadyQueue(c: CoId, ghost transit: set<CoId>)
      requires Valid(transit) && c in transit
      modifies `ready, `index, `top
      ensures Valid(transit - {c}) && c in priority && LastInTurn(c) && top == Higher(priority[c], old(top))
    {
      hide Lists.Turn, Joined, JoinedAt, Passed, Owners, ReadyOk, PlacesOk, FairOk, EventsOk, DelaysOk;
      PlaceOf(levels, priority, ready, top, Waiting(), transit, c);
      var p := priority[c];
      IndexOk(levels, priority, ready, index, picks, p);
      FairAdded(levels, priority, ready, top, Waiting(), transit, index, picks, c);
      ReadyAdded(levels, priority, ready, top, Waiting(), transit, index[p], c);
      JoinedTurn(ready[p], index[p], c);
      if p > top {
        top := p;
      }
      ready := ready[p := Joined(ready[p], index[p], c)];
      index := index[p := JoinedAt(index[p])];
    }

    /** xCoRoutineCreate; `block` is what the allocator returned. */
    method Create(block: Option<CoId>, uxPriority: nat) returns (passed: bool)
      requires Valid({})
      requires CurrentOk() && (block.Some? ==> block.value !in priority)
      modifies `priority, `ready, `index, `top, `current
      ensures Valid({}) && CurrentOk() && passed == block.Some?
      ensures passed ==>
        && priority == old(priority)[block.value := if uxPriority >= levels then levels - 1 else uxPriority]
        && priority[block.value] < |ready| && block.value in ready[priority[block.value]]
        && current == if old(priority) == map[] then block.value else old(current)
      ensures !passed ==> priority == old(priority) && ready == old(ready) && current == old(current)
    {
      hide ReadyOk, PlacesOk, FairOk, EventsOk, DelaysOk;
      passed := block.Some?;
      if passed {
        var c := block.value;
        var p := if uxPriority >= levels then levels - 1 else uxPriority;
        if priority == map[] {
          current := c;
        }
        Created(levels, priority, ready, top, Waiting(), events, pending, event, c, p);
        FairCreated(levels, priority, ready, index, picks, c, p);
        priority := priority[c := p];
        AddToReadyQueue(c, {c});
        JoinedMembers(old(ready)[p], old(index)[p], c);
        assert {c} - {c} == {};
      }
    }

    /** The item of the current co-routine leaves its ready list.  The order of the others stays as it is. */
    method LeaveReadyList()
      requires Valid({}) && current in priority && current !in Waiting() && Passed(picks, current) == 0
      modifies `ready, `index
      ensures Valid({current})
      ensures var p := priority[current];
              && p < |ready| == |index| == |old(ready)| == |old(index)|
              && index[p] <= |ready[p]| && old(index)[p] <= |old(ready)[p]|
              && Lists.Turn(ready[p], index[p]) == Removed(Lists.Turn(old(ready)[p], old(index)[p]), current)
    {
      hide Lists.Turn, Passed, Removed, LeftAt, Owners, ReadyOk, PlacesOk, FairOk, EventsOk, DelaysOk;
      PlaceOf(levels, priority, ready, top, Waiting(), {}, current);
      ReadyRemoved(levels, priority, ready, top, Waiting(), current);
      var p := priority[current];
      var k: nat :| k < |ready[p]| && ready[p][k] == current;
      DistinctList(levels, priority, ready, top, p);
      IndexOk(levels, priority, ready, index, picks, p);
      FairRemoved(levels, priority, ready, index, picks, p, k);
      TurnWithout(ready[p], index[p], k);
      RemovedAt(ready[p], k);
      ready := ready[p := Removed(ready[p], current)];
      index := index[p := LeftAt(index[p], k)];
    }

    method FileDelayed(word: Tick, d: nat)
      requires Valid({current}) && word == Stored(d) && Epoch(d) == ListEpoch(clock) && clock <= d
      modifies `delayed, `due
      ensures Valid({}) && delayed == Inserted(old(delayed), Entry(current, word)) && due == old(due)[current := d]
      ensures Waiting() == old(Waiting()) + {current} && current !in old(Waiting()) && delayed != []
      ensures old(AtRest()) ==> AtRest()
    {
      hide ReadyOk, PlacesOk, FairOk, EventsOk, DelaysOk, DueIn, Owners, Inserted;
      Filed(levels, priority, ready, events, pending, event, delayed, overflow, Entry(current, word));
      if AtRest() {
        FiledInTime(delayed, overflow, Entry(current, word), due, d, Epoch(clock) + 1, clock);
      }
      delayed := Inserted(delayed, Entry(current, word));
      due := due[current := d];
    }

    method FileOverflow(word: Tick, d: nat)
      requires Valid({current}) && word == Stored(d) && Epoch(d) == Epoch(clock) + 1 && clock <= d
      modifies `overflow, `due
      ensures Valid({}) && overflow == Inserted(old(overflow), Entry(current, word)) && due == old(due)[current := d]
      ensures Waiting() == old(Waiting()) + {current} && current !in old(Waiting())
      ensures old(AtRest()) ==> AtRest()
    {
      hide ReadyOk, PlacesOk, FairOk, EventsOk, DelaysOk, DueIn, Owners, Inserted;
      DelaysSwap(delayed, overflow);
      Filed(levels, priority, ready, events, pending, event, overflow, delayed, Entry(current, word));
      DelaysSwap(Inserted(overflow, Entry(current, word)), delayed);
      if AtRest() {
        FiledInTime(overflow, delayed, Entry(current, word), due, d, ListEpoch(clock), clock);
      }
      overflow := Inserted(overflow, Entry(current, word));
      due := due[current := d];
    }

    /** vCoRoutineAddToDelayedList: the current co-routine waits for `ticks` ticks, and also for an event
        if a list is given.  The wait is filed by the epoch it ends in, but for a wait of no ticks at
        the last tick before the wrap, which is filed on the list that is about to be swapped out. */
    method AddToDelayedList(ticks: Tick, eventList: Option<nat>)
      requires Valid({}) && current in priority && current !in Waiting() && Running()
      requires eventList.Some? ==> eventList.value < |events|
      modifies `ready, `index, `delayed, `overflow, `events, `event, `due, `history
      ensures Valid({}) && Waiting() == old(Waiting()) + {current}
      ensures due == old(due)[current := WakeTime(clock, ticks)]
      ensures history == Recorded(old(history), current, Began(clock, ticks, eventList.Some?))
      ensures var e := Entry(current, Stored(clock + ticks));
              if Epoch(clock + ticks) == Epoch(clock)
              then delayed == Inserted(old(delayed), e) && overflow == old(overflow)
              else delayed == old(delayed) && overflow == Inserted(old(overflow), e)
      ensures match eventList
              case None => event == old(event) && events == old(events)
              case Some(i) =>
                && priority[current] < levels
                && event == old(event)[current := OnList(i)]
                && events == old(events)[i := Inserted(old(events)[i], Entry(current, levels - priority[current]))]
      ensures old(AtRest()) ==> AtRest()
      ensures old(Accounted()) ==> Accounted() && Grown(old(history), history)
    {
      hide ReadyOk, PlacesOk, FairOk, EventsOk, DelaysOk, DueIn, Inserted, Owners, HistoryOk, Grown, WakeTime;
      ghost var waiting, onEvent := Waiting(), event.Keys;
      NoEvent(levels, priority, events, pending, event, waiting, current);
      FileWait(ticks);
      if eventList.Some? {
        WaitForEvent(eventList.value);
        assert event.Keys == onEvent + {current};
      }
      if old(Accounted()) {
        HistoryBegan(history, waiting, onEvent, old(due), clock, current, ticks, eventList.Some?);
      }
      history := Recorded(history, current, Began(clock, ticks, eventList.Some?));
    }

    /** The current co-routine moves from its ready list to the delay list that it belongs on. */
    method FileWait(ticks: Tick)
      requires Valid({}) && current in priority && current !in Waiting() && Running()
      modifies `ready, `index, `delayed, `overflow, `due
      ensures Valid({}) && Waiting() == old(Waiting()) + {current}
      ensures due == old(due)[current := WakeTime(clock, ticks)]
      ensures var e := Entry(current, Stored(clock + ticks));
              if Epoch(clock + ticks) == Epoch(clock)
              then delayed == Inserted(old(delayed), e) && overflow == old(overflow)
              else delayed == old(delayed) && overflow == Inserted(old(overflow), e)
      ensures old(AtRest()) ==> AtRest()
    {
      hide ReadyOk, PlacesOk, FairOk, EventsOk, DelaysOk, DueIn, Inserted, Owners, WakeTime;
      DelayPlacement(clock, ticks);
      WakeEpoch(clock, ticks);
      var timeToWake := Plus(Stored(clock), ticks);
      LeaveReadyList();
      if timeToWake < Stored(clock) {
        FileOverflow(timeToWake, WakeTime(clock, ticks));
      } else {
        FileDelayed(timeToWake, WakeTime(clock, ticks));
      }
    }

    method WaitForEvent(i: nat)
      requires Valid({}) && current in priority && current in Waiting() && current !in event && i < |events|
      modifies `events, `event
      ensures Valid({}) && priority[current] < levels && event == old(event)[current := OnList(i)]
      ensures events == old(events)[i := Inserted(old(events)[i], Entry(current, levels - priority[current]))]
    {
      hide ReadyOk, PlacesOk, FairOk, EventsOk, DelaysOk, Inserted, Owners;
      PlaceOf(levels, priority, ready, top, Waiting(), {}, current);
      var e := Entry(current, levels - priority[current]);
      EventInserted(levels, priority, events, pending, event, Waiting(), i, e);
      event := event[current := OnList(i)];
      events := events[i := Inserted(events[i], e)];
    }

    // --------------------------------------------------------------- Events

    /** xCoRoutineRemoveFromEventList: the co-routine of highest priority that waits on the list is
        marked as ready; it stays on its delay list until the scheduler gets to it. */
    method RemoveFromEventList(i: nat, ghost transit: set<CoId>) returns (higher: bool)
      requires Valid(transit) && i < |events| && events[i] != [] && current in priority
      modifies `events, `pending, `event
      ensures Valid(transit) && event.Keys == old(event.Keys)
      ensures var c := old(events)[i][0].owner;
              && c in Waiting() && HighestOf(old(events)[i], priority, c)
              && pending == old(pending) + [c]
              && events == old(events)[i := Without(old(events)[i], c)]
              && event == old(event)[c := Pending]
              && higher == (priority[c] >= priority[current])
    {
      hide ReadyOk, PlacesOk, FairOk, DelaysOk, Without;
      EventWoken(levels, priority, events, pending, event, Waiting(), i);
      HeadHasTopPriority(levels, priority, events[i], event, i);
      hide EventsOk;
      var c := events[i][0].owner;
      higher := priority[c] >= priority[current];
      events := events[i := Without(events[i], c)];
      pending := pending + [c];
      event := event[c := Pending];
    }

    /** What interrupts do to the scheduler: they wake co-routines that wait for events. */
    method Interrupts(ghost transit: set<CoId>)
      requires Valid(transit) && CurrentOk()
      modifies `events, `pending, `event
      ensures Valid(transit) && event.Keys == old(event.Keys) && |events| == old(|events|)
      ensures old(pending) <= pending && forall c :: c in old(pending) ==> c in pending
    {
      var k :| 0 <= k;
      for n := 0 to k
        invariant Valid(transit) && event.Keys == old(event.Keys) && |events| == old(|events|)
        invariant old(pending) <= pending && forall c :: c in old(pending) ==> c in pending
      {
        hide ReadyOk, PlacesOk, FairOk, DelaysOk, EventsOk, Without;
        var i :| 0 <= i;
        if i < |events| && events[i] != [] {
          SomeoneWaits(levels, priority, events, pending, event, Waiting(), i);
          var _ := RemoveFromEventList(i, transit);
        }
      }
    }

    /** The item of `c` leaves its event list or the pending list. */
    method RemoveEventItem(c: CoId, ghost transit: set<CoId>)
      requires Valid(transit) && c in event
      modifies `events, `pending, `event
      ensures Valid(transit) && event == old(event) - {c} && |events| == old(|events|)
      ensures forall x :: x in old(pending) && x != c ==> x in pending
      ensures c !in pending
    {
      hide ReadyOk, PlacesOk, FairOk, DelaysOk, EventsOk, Without;
      ghost var waiting, before := Waiting(), event;
      EventRemoved(levels, priority, events, pending, event, waiting, c);
      RemovedMembers(pending, c);
      StillWaiting(levels, priority, events, pending, event, waiting, c);
      if event[c].OnList? {
        var i := event[c].list;
        events := events[i := Without(events[i], c)];
      } else {
        pending := Removed(pending, c);
      }
      event := event - {c};
    }

    // ---------------------------------------------------------- Waking up

    method LeaveDelayList(c: CoId, ghost epoch: nat, ghost from: nat)
      requires Valid({}) && c in Waiting() && c !in event
      modifies `delayed, `overflow
      ensures Valid({c}) && Waiting() == old(Waiting()) - {c}
      ensures delayed == Without(old(delayed), c) && overflow == Without(old(overflow), c)
      ensures old(Timely(epoch, from)) ==> Timely(epoch, from)
    {
      hide ReadyOk, PlacesOk, FairOk, EventsOk, DelaysOk, DueIn, Owners;
      Unfiled(levels, priority, ready, events, pending, event, delayed, overflow, c);
      if Timely(epoch, from) {
        UnfiledInTime(delayed, c, due, epoch, from);
        UnfiledInTime(overflow, c, due, Epoch(clock) + 1, from);
      }
      delayed, overflow := Without(delayed, c), Without(overflow, c);
    }

    /** A delayed co-routine goes to its ready list. */
    method MakeReady(c: CoId, ghost epoch: nat, ghost from: nat)
      requires Valid({}) && c in Waiting() && c !in event
      modifies `delayed, `overflow, `ready, `index, `top
      ensures Valid({}) && Waiting() == old(Waiting()) - {c}
      ensures old(Timely(epoch, from)) ==> Timely(epoch, from)
    {
      hide LastInTurn, ReadyOk, PlacesOk, FairOk, EventsOk, DelaysOk, DueIn, Owners, Without;
      LeaveDelayList(c, epoch, from);
      AddToReadyQueue(c, {c});
      assert {c} - {c} == {};
    }

    /** The first item of the pending list is taken off with interrupts disabled; the rest is not. */
    method ReadyPending(ghost epoch: nat, ghost from: nat)
      requires Valid({}) && CurrentOk() && pending != []
      modifies `ready, `index, `top, `delayed, `overflow, `events, `pending, `event, `history
      ensures Valid({}) && old(pending)[0] in old(event) && old(pending)[0] in old(Waiting())
      ensures event.Keys == old(event.Keys) - {old(pending)[0]}
      ensures Waiting() == old(Waiting()) - {old(pending)[0]}
      ensures forall c :: c in old(pending) && c != old(pending)[0] ==> c in pending
      ensures old(Timely(epoch, from)) ==> Timely(epoch, from)
      ensures history == Recorded(old(history), old(pending)[0], Woken(clock))
    {
      hide LastInTurn, ReadyOk, PlacesOk, FairOk, EventsOk, DelaysOk, DueIn, Owners, Without;
      Interrupts({});
      PendingHead(levels, priority, events, pending, event, Waiting());
      var c := pending[0];
      RemoveEventItem(c, {});
      Interrupts({});
      MakeReady(c, epoch, from);
      history := Recorded(history, c, Woken(clock));
    }

    /** prvCheckPendingReadyList: everything on the pending list becomes ready, and nothing leaves a
        delay list that did not wait for an event. */
    method CheckPendingReadyList()
      requires Valid({}) && CurrentOk()
      modifies `ready, `index, `top, `delayed, `overflow, `events, `pending, `event, `history
      ensures Valid({}) && pending == []
      ensures Waiting() <= old(Waiting()) && event.Keys <= old(event.Keys)
      ensures forall c :: c in old(pending) ==> c !in Waiting()
      ensures old(Waiting()) - Waiting() <= old(event.Keys)
      ensures Logged(old(history), history, old(Waiting()) - Waiting(), Woken(clock))
      ensures old(AtRest()) ==> AtRest()
      ensures old(Accounted()) ==> Accounted() && Grown(old(history), history)
    {
      hide ReadyOk, PlacesOk, FairOk, EventsOk, DelaysOk, DueIn, Owners, HistoryOk, Grown, Logged;
      PendingHead(levels, priority, events, pending, event, Waiting());
      NothingLogged(history, Waiting(), Woken(clock));
      while pending != []
        invariant Valid({})
        invariant Waiting() <= old(Waiting()) && event.Keys <= old(event.Keys)
        invariant forall c :: c in old(pending) ==> c !in Waiting() || c in pending
        invariant old(Waiting()) - Waiting() <= old(event.Keys)
        invariant Logged(old(history), history, old(Waiting()) - Waiting(), Woken(clock))
        invariant old(AtRest()) ==> AtRest()
        decreases event.Keys
      {
        Interrupts({});
        ghost var keys, waiting, c, past := event.Keys, Waiting(), pending[0], history;
        ReadyPending(ListEpoch(clock), clock);
        assert event.Keys < keys;
        OneWoken(old(history), past, old(Waiting()), waiting, c, clock);
      }
      if old(Accounted()) {
        HistoryWoken(old(history), history, old(Waiting()), Waiting(), old(event.Keys), event.Keys, due, clock);
      }
    }

    // ------------------------------------------------------------- Delays

    /** The head of the delay list has run out: it becomes ready, and no longer waits for an event. */
    method ExpireHead(ghost epoch: nat, ghost from: nat)
      requires Valid({}) && CurrentOk() && delayed != []
      modifies `ready, `index, `top, `delayed, `overflow, `events, `pending, `event, `history
      ensures Valid({}) && old(delayed)[0].owner in old(Waiting()) && event.Keys <= old(event.Keys)
      ensures Waiting() == old(Waiting()) - {old(delayed)[0].owner}
      ensures history == Recorded(old(history), old(delayed)[0].owner, TimedOut(clock))
      ensures old(Timely(epoch, from)) ==> Timely(epoch, from)
    {
      hide LastInTurn, ReadyOk, PlacesOk, FairOk, EventsOk, DelaysOk, DueIn, Owners, Without;
      HeadIsOwner(delayed);
      var c := delayed[0].owner;
      Interrupts({});
      if c in event {
        RemoveEventItem(c, {});
      }
      MakeReady(c, epoch, from);
      history := Recorded(history, c, TimedOut(clock));
    }

    /** One round of the loop that follows. */
    method ExpireNext(ghost waiting: set<CoId>, ghost before: History)
      requires Valid({}) && CurrentOk() && clock > 0 && Timely(Epoch(clock), clock - 1)
      requires delayed != [] && delayed[0].owner in due && due[delayed[0].owner] <= clock
      requires Expired(waiting, Waiting(), before, history, due, clock)
      modifies `ready, `index, `top, `delayed, `overflow, `events, `pending, `event, `history
      ensures Valid({}) && Timely(Epoch(clock), clock - 1) && event.Keys <= old(event.Keys)
      ensures Waiting() < old(Waiting()) && Expired(waiting, Waiting(), before, history, due, clock)
    {
      hide ReadyOk, PlacesOk, FairOk, EventsOk, DelaysOk, DueIn, Owners, Expired, Recorded, Past, Stored, Epoch;
      ghost var c, past, now := delayed[0].owner, history, Waiting();
      ExpireHead(Epoch(clock), clock - 1);
      OneExpired(waiting, now, before, past, due, clock, c);
    }

    /** The inner loop of prvCheckDelayedList: exactly the delays that end at this tick, or ended before
        it, run out. */
    method ExpireDelays()
      requires Valid({}) && CurrentOk() && clock > 0 && Timely(Epoch(clock), clock - 1)
      modifies `ready, `index, `top, `delayed, `overflow, `events, `pending, `event, `history
      ensures Valid({}) && Timely(Epoch(clock), clock + 1) && event.Keys <= old(event.Keys)
      ensures Waiting() <= old(Waiting()) <= due.Keys
      ensures forall c :: c in old(Waiting()) ==> (c in Waiting() <==> clock < due[c])
      ensures Logged(old(history), history, old(Waiting()) - Waiting(), TimedOut(clock))
    {
      hide ReadyOk, PlacesOk, FairOk, EventsOk, DelaysOk, DueIn, Owners, Expired, Without, Logged, Recorded, Past, Stored, Epoch;
      OwnersDue(delayed, overflow, due, clock);
      NothingExpired(Waiting(), history, due, clock);
      while delayed != []
        invariant Valid({}) && Timely(Epoch(clock), clock - 1) && event.Keys <= old(event.Keys)
        invariant Expired(old(Waiting()), Waiting(), old(history), history, due, clock)
        decreases Waiting()
      {
        HeadIsDue(delayed, due, clock);
        if Stored(clock) < delayed[0].value {
          break;
        }
        ExpireNext(old(Waiting()), old(history));
      }
      NotYetDue(delayed, overflow, due, clock);
      AllExpired(old(Waiting()), Waiting(), old(history), history, due, clock);
    }

    /** One more tick.  When the tick word wraps the lists are swapped. */
    method AdvanceTick()
      requires Valid({}) && AtRest()
      modifies `clock, `delayed, `overflow
      ensures clock == old(clock) + 1 && Valid({}) && Timely(Epoch(clock), clock - 1) && Waiting() == old(Waiting())
      ensures Stored(clock) == 0 ==> delayed == old(overflow) && overflow == old(delayed)
      ensures Stored(clock) != 0 ==> delayed == old(delayed) && overflow == old(overflow)
    {
      hide ReadyOk, PlacesOk, FairOk, EventsOk;
      NextTick(clock);
      clock := clock + 1;
      if Stored(clock) == 0 {
        delayed, overflow := overflow, delayed;
        assert Waiting() == old(Waiting());
      }
    }

    /** The list that is swapped out should be empty.  It is so exactly when nobody has asked, at the
        last tick before the wrap, for a delay of no ticks. */
    lemma SwappedOutEmpty()
      requires Valid({}) && AtRest() && Accounted() && Stored(clock) == MAX_DELAY
      ensures delayed == [] <==>
        forall c :: c in Waiting() ==>
          var past := Past(history, c);
          past != [] && !(past[|past| - 1].at == clock && past[|past| - 1].ticks == 0)
    {
      forall c | c in Waiting()
        ensures var past := Past(history, c);
                past != [] && past[|past| - 1].Began?
                && (c in Owners(delayed) <==> past[|past| - 1].at == clock && past[|past| - 1].ticks == 0)
      {
        var began := Past(history, c)[|Past(history, c)| - 1];
        WakesBeyond(began.at, began.ticks, clock);
        if c in Owners(delayed) {
          assert Epoch(due[c]) == Epoch(clock) + 2;
        } else {
          assert c in Owners(overflow) && Epoch(due[c]) == Epoch(clock) + 1;
        }
      }
      HeadIsOwner(delayed);
    }

    /** prvCheckDelayedList; `now` is the tick count that the kernel reports, less than one wrap after
        the ticks handled before.  Exactly the delays that end by then run out, each at its own tick. */
    method CheckDelayedList(now: nat)
      requires Valid({}) && AtRest() && CurrentOk() && clock <= now < clock + TICKS
      modifies `ready, `index, `top, `delayed, `overflow, `events, `pending, `event, `history, `clock
      ensures Valid({}) && AtRest() && clock == now && event.Keys <= old(event.Keys)
      ensures RanOut(old(Waiting()), Waiting(), old(history), history, due, old(clock), now)
      ensures old(Accounted()) ==> Accounted() && Grown(old(history), history)
    {
      hide ReadyOk, PlacesOk, FairOk, EventsOk, DelaysOk, DueIn, Owners, RanOut, Logged, HistoryOk, Grown;
      WrapIsVisible(clock, now);
      NothingRanOut(delayed, overflow, history, due, ListEpoch(clock), Epoch(clock) + 1, clock);
      var passedTicks := Minus(Stored(now), Stored(clock));
      while passedTicks > 0
        invariant old(clock) <= clock && clock + passedTicks == now
        invariant Valid({}) && AtRest() && event.Keys <= old(event.Keys)
        invariant RanOut(old(Waiting()), Waiting(), old(history), history, due, old(clock), clock)
      {
        ghost var waiting, past, at := Waiting(), history, clock;
        Interrupts({});
        AdvanceTick();
        passedTicks := passedTicks - 1;
        ExpireDelays();
        LastTick(delayed, overflow, due, clock);
        RanOutStep(old(Waiting()), waiting, Waiting(), old(history), past, history, due, old(clock), at);
      }
      if old(Accounted()) {
        HistoryRanOut(old(history), history, old(Waiting()), Waiting(), old(event.Keys), event.Keys, due, old(clock), now);
      }
    }

    // ---------------------------------------------------------- Scheduling

    /** The last part of vCoRoutineSchedule: of the co-routines of the highest priority that has a ready one, the
        one whose turn it is becomes the current one and goes to the end of the order; there is none exactly if
        nothing is ready. */
    method PickNext(ghost now: nat) returns (found: bool)
      requires Valid({}) && CurrentOk()
      modifies `top, `current, `index, `picks
      ensures Valid({}) && CurrentOk()
      ensures found <==> ReadyNow() != map[]
      ensures found ==>
        && current in priority && current !in Waiting() && Running()
        && forall c :: c in priority && c !in Waiting() ==> priority[c] <= priority[current]
      ensures found ==>
        var p := priority[current];
        && p < |ready| == |index| == |old(index)| && old(index)[p] <= |ready[p]|
        && index == old(index)[p := index[p]] && index[p] <= |ready[p]|
        && var turn := Lists.Turn(ready[p], old(index)[p]);
           turn != [] && current == turn[0] && Lists.Turn(ready[p], index[p]) == turn[1..] + [turn[0]]
      ensures !found ==> current == old(current) && index == old(index)
      ensures picks == old(picks) + if found then [Pick(current, now, ReadyNow())] else []
    {
      hide ReadyOk, PlacesOk, FairOk, EventsOk, DelaysOk, Owners;
      found := FindTop();
      if found {
        PlaceOf(levels, priority, ready, top, Waiting(), {}, current);
        IndexOk(levels, priority, ready, index, picks, top);
        var next := NextAt(index[top], |ready[top]|);
        var c := ready[top][next - 1];
        assert c in ready[top];
        TopReady(levels, priority, ready, top, Waiting(), c);
        NextTurn(ready[top], index[top]);
        ghost var pick := Pick(c, now, ReadyNow());
        FairPicked(levels, priority, ready, top, Waiting(), index, picks, pick);
        index := index[top := next];
        current := c;
        assert c in ReadyNow();
        picks := picks + [pick];
      } else {
        NothingReady(levels, priority, ready, top, Waiting());
      }
    }

    /** Nobody starves: a ready co-routine has been passed over by at most two rounds of the others of its priority
        since it was last picked or became ready. */
    lemma NobodyStarves(c: CoId)
      requires Valid({}) && c in priority && c !in Waiting()
      ensures Passed(picks, c) <= 2 * |Peers(priority, priority[c])| - 2
    {
      hide ReadyOk, EventsOk, DelaysOk, Passed;
      var p := priority[c];
      var k: nat :| k < |ready[p]| && ready[p][k] == c;
      assert ListFair(ready[p], index[p], picks, |Peers(priority, p)|);
    }

    method FindTop() returns (found: bool)
      requires Valid({})
      modifies `top
      ensures Valid({}) && top < |ready|
      ensures if found then ready[top] != [] && ready[top][0] in ready[top] else top == 0 && ready[0] == []
    {
      hide ReadyOk, PlacesOk, FairOk, EventsOk, DelaysOk, Owners;
      PlaceOf(levels, priority, ready, top, Waiting(), {}, current);
      while ready[top] == []
        invariant Valid({}) && top < |ready|
        decreases top
      {
        if top == 0 {
          return false;
        }
        LowerTop(levels, priority, ready, top);
        top := top - 1;
      }
      found := true;
    }

    /** The delay macros and the blocking queue calls: no delay of no ticks is filed. */
    method Block(ticks: Tick, eventList: Option<nat>)
      requires Valid({}) && AtRest() && Accounted() && current in priority && current !in Waiting() && Running()
      requires eventList.Some? ==> eventList.value < |events|
      modifies `ready, `index, `delayed, `overflow, `events, `event, `due, `history
      ensures Valid({}) && AtRest() && Accounted() && Grown(old(history), history)
      ensures ticks > 0 ==> history == Recorded(old(history), current, Began(clock, ticks, eventList.Some?))
      ensures ticks == 0 ==> Waiting() == old(Waiting()) && history == old(history)
    {
      hide ReadyOk, PlacesOk, FairOk, EventsOk, DelaysOk, DueIn, Owners, Inserted, HistoryOk;
      if ticks > 0 {
        AddToDelayedList(ticks, eventList);
      }
    }

    /** What may happen at any time outside the scheduler: co-routines are created, and interrupts wake
        others. */
    method Outside()
      requires Valid({}) && AtRest() && CurrentOk() && Accounted()
      modifies `priority, `ready, `index, `top, `current, `events, `pending, `event
      ensures Valid({}) && AtRest() && CurrentOk() && Accounted()
      ensures old(priority) != map[] ==> current == old(current)
      ensures forall c :: c in old(priority) ==> c in priority && priority[c] == old(priority)[c]
      ensures forall c :: c in old(pending) ==> c in pending
    {
      hide ReadyOk, PlacesOk, FairOk, EventsOk, DelaysOk, DueIn, Owners, HistoryOk;
      var k :| 0 <= k;
      for n := 0 to k
        invariant Valid({}) && AtRest() && CurrentOk() && Accounted()
        invariant old(priority) != map[] ==> current == old(current)
        invariant forall c :: c in old(priority) ==> c in priority && priority[c] == old(priority)[c]
        invariant forall c :: c in old(pending) ==> c in pending
      {
        if * {
          var block: Option<CoId>, uxPriority: nat := *, *;
          if block.Some? && block.value in priority {
            block := None;
          }
          var _ := Create(block, uxPriority);
        } else {
          Interrupts({});
        }
      }
    }

    /** Anything that the function of the current co-routine may do: create co-routines, be interrupted,
        and at the end wait, by a macro or by a plain call. */
    method RunCurrent()
      requires Valid({}) && AtRest() && Accounted() && current in priority && current !in Waiting() && Running()
      modifies `priority, `ready, `index, `top, `current, `events, `pending, `event, `delayed, `overflow, `due, `history, `called
      ensures Valid({}) && AtRest() && Accounted() && current in priority && current == old(current)
      ensures called == old(called) + [current]
      ensures Grown(old(history), history) && old(priority.Keys) <= priority.Keys
    {
      hide ReadyOk, PlacesOk, FairOk, EventsOk, DelaysOk, DueIn, Owners, Inserted, HistoryOk;
      called := called + [current];
      Outside();
      var ticks: Tick, eventList: Option<nat> := *, *;
      if eventList.Some? && eventList.value >= |events| {
        eventList := None;
      }
      if * {
        Block(ticks, eventList);
      } else {
        AddToDelayedList(ticks, eventList);
      }
    }

    /** Whoever had been woken by then is woken now, and the account says so. */
    twostate predicate PendingWoken()
      reads `history, `delayed, `overflow
    {
      forall c :: c in old(pending) ==> c !in Waiting() && Past(history, c) == Past(old(history), c) + [Woken(old(clock))]
    }

    lemma WaitingIsKnown()
      requires Valid({})
      ensures Waiting() <= priority.Keys
    {
      hide ReadyOk, FairOk, EventsOk, DelaysOk, Owners;
    }

    /** The three parts of vCoRoutineSchedule before the co-routine is called. */
    method Choose(now: nat) returns (found: bool)
      requires Valid({}) && AtRest() && CurrentOk() && Accounted() && PicksOk() && clock <= now < clock + TICKS
      modifies `ready, `index, `top, `delayed, `overflow, `events, `pending, `event, `history, `clock, `current, `picks
      ensures Valid({}) && AtRest() && CurrentOk() && Accounted() && PicksOk() && clock == now
      ensures Grown(old(history), history)
      ensures found <==> ReadyNow() != map[]
      ensures PendingWoken() && forall c :: c in old(pending) ==> c in ReadyNow()
      ensures found ==> current in priority && current !in Waiting() && Running()
      ensures picks == old(picks) + if found then [Pick(current, now, ReadyNow())] else []
      ensures !found ==> current == old(current)
    {
      hide ReadyOk, PlacesOk, FairOk, EventsOk, DelaysOk, DueIn, Owners, HistoryOk;
      WakeAndExpire(now);
      found := PickNext(now);
    }

    /** The first two parts: who was woken by an event and whose time is over becomes ready. */
    method WakeAndExpire(now: nat)
      requires Valid({}) && AtRest() && CurrentOk() && Accounted() && clock <= now < clock + TICKS
      modifies `ready, `index, `top, `delayed, `overflow, `events, `pending, `event, `history, `clock
      ensures Valid({}) && AtRest() && CurrentOk() && Accounted() && clock == now
      ensures Grown(old(history), history)
      ensures PendingWoken() && forall c :: c in old(pending) ==> c in ReadyNow()
    {
      hide ReadyOk, PlacesOk, FairOk, EventsOk, DelaysOk, DueIn, Owners, RanOut, HistoryOk, Logged;
      PendingHead(levels, priority, events, pending, event, Waiting());
      WaitingIsKnown();
      ghost var waiting, before, at := Waiting(), history, clock;
      CheckPendingReadyList();
      ghost var still, woken := Waiting(), history;
      Interrupts({});
      CheckDelayedList(now);
      WokenStays(waiting, still, Waiting(), before, woken, history, due, at, now, old(pending));
      GrownTogether(before, woken, history);
    }

    /** vCoRoutineSchedule: it calls a ready co-routine of the highest priority, and none only if every
        co-routine waits. */
    method Schedule(now: nat)
      requires Valid({}) && AtRest() && CurrentOk() && Accounted() && PicksOk() && clock <= now < clock + TICKS
      modifies this
      ensures Valid({}) && AtRest() && CurrentOk() && Accounted() && PicksOk() && clock == now
      ensures old(PickedAreCalled()) ==> PickedAreCalled()
      ensures Grown(old(history), history) && old(priority.Keys) <= priority.Keys
      ensures forall c :: c in old(pending) ==> Past(old(history), c) + [Woken(old(clock))] <= Past(history, c)
      ensures picks == old(picks) ==> priority.Keys <= Waiting() && old(pending) == []
      ensures picks != old(picks) ==>
        exists ready :: picks == old(picks) + [Pick(current, now, ready)] && forall c :: c in old(pending) ==> c in ready
    {
      hide ReadyOk, PlacesOk, FairOk, EventsOk, DelaysOk, DueIn, Owners, RanOut, HistoryOk, TopPick;
      var found := Choose(now);
      assert forall c :: c in priority && c !in Waiting() ==> c in ReadyNow();
      assert old(pending) != [] ==> old(pending)[0] in ReadyNow();
      if found {
        RunCurrent();
      }
    }

    /** Every run, in which co-routines are created, scheduled and interrupted, keeps the invariants, as
        long as the scheduler is called at least once per wrap. */
    method Run(rounds: nat)
      requires Valid({}) && AtRest() && CurrentOk() && Accounted() && PicksOk()
      modifies this
      ensures Valid({}) && AtRest() && CurrentOk() && Accounted() && PicksOk()
      ensures old(PickedAreCalled()) ==> PickedAreCalled()
      ensures clock >= old(clock) && Grown(old(history), history) && old(picks) <= picks
      ensures rounds > 0 ==>
        forall c :: c in old(pending) ==> Past(old(history), c) + [Woken(old(clock))] <= Past(history, c)
    {
      hide ReadyOk, PlacesOk, FairOk, EventsOk, DelaysOk, DueIn, Owners, HistoryOk, TopPick;
      for n := 0 to rounds
        invariant Valid({}) && AtRest() && CurrentOk() && Accounted() && PicksOk()
        invariant clock >= old(clock) && Grown(old(history), history) && old(picks) <= picks
        invariant old(PickedAreCalled()) ==> PickedAreCalled()
        invariant n == 0 ==> unchanged(this)
        invariant n > 0 ==>
          forall c :: c in old(pending) ==> Past(old(history), c) + [Woken(old(clock))] <= Past(history, c)
      {
        var now :| clock <= now < clock + TICKS;
        Outside();
        ghost var past := history;
        Schedule(now);
        GrownTogether(old(history), past, history);
        GrownBeyond(old(history), past, history, old(pending), Woken(old(clock)), n > 0);
      }
    }
  }

  lemma GrownBeyond(a: History, b: History, c: History, these: seq<CoId>, event: DelayEvent, already: bool)
    requires Grown(b, c)
    ensures already && (forall x :: x in these ==> Past(a, x) + [event] <= Past(b, x)) ==>
              forall x :: x in these ==> Past(a, x) + [event] <= Past(c, x)
  {
    forall x | x in these && Past(a, x) + [event] <= Past(b, x) ensures Past(a, x) + [event] <= Past(c, x) {
      assert Past(b, x) <= Past(c, x);
    }
  }

  /** A wait that its event has ended is not touched by the ticks that follow. */
  lemma WokenStays(waiting: set<CoId>, still: set<CoId>, now: set<CoId>, before: History, woken: History, after: History,
                   due: map<CoId, nat>, at: nat, to: nat, these: seq<CoId>)
    requires Logged(before, woken, waiting - still, Woken(at)) && RanOut(still, now, woken, after, due, at, to)
    requires forall c :: c in these ==> c in waiting && c !in still
    ensures forall c :: c in these ==> c !in now && Past(after, c) == Past(before, c) + [Woken(at)]
  {
    hide Past;
    forall c | c in these ensures c !in now && Past(after, c) == Past(before, c) + [Woken(at)] {
      assert Past(after, c) == Past(woken, c) + [];
    }
  }

  lemma GrownTogether(a: History, b: History, c: History)
    requires Grown(a, b) && Grown(b, c)
    ensures Grown(a, c)
  {
    forall x ensures Past(a, x) <= Past(c, x) {
      assert Past(a, x) <= Past(b, x) <= Past(c, x);
    }
  }

  lemma DistinctList(levels: nat, priority: map<CoId, nat>, ready: seq<seq<CoId>>, top: nat, p: nat)
    requires ReadyOk(levels, priority, ready, top) && p < levels
    ensures Distinct(ready[p])
  {
  }

  lemma IndexOk(levels: nat, priority: map<CoId, nat>, ready: seq<seq<CoId>>, index: seq<nat>, picks: seq<Pick>, p: nat)
    requires FairOk(levels, priority, ready, index, picks) && p < levels
    ensures |index| == levels == |ready| && index[p] <= |ready[p]|
  {
    hide Passed;
    assert ListFair(ready[p], index[p], picks, |Peers(priority, p)|);
  }

  /** The order of turns without one of them. */
  lemma TurnWithout(list: seq<CoId>, at: nat, k: nat)
    requires k < |list| && at <= |list| && Distinct(list)
    ensures LeftAt(at, k) <= |list| - 1
    ensures Lists.Turn(list[..k] + list[k + 1..], LeftAt(at, k)) == Removed(Lists.Turn(list, at), list[k])
  {
    LeftTurn(list, at, k);
    var turn, j := Lists.Turn(list, at), Lists.TurnIndex(|list|, at, k);
    RemovedAt(turn, j);
  }

  lemma LowerTop(levels: nat, priority: map<CoId, nat>, ready: seq<seq<CoId>>, top: nat)
    requires ReadyOk(levels, priority, ready, top) && top > 0 && ready[top] == []
    ensures ReadyOk(levels, priority, ready, top - 1)
  {
  }

  /** Nothing is ready above the first list, from `top` down, that is not empty. */
  lemma TopReady(levels: nat, priority: map<CoId, nat>, ready: seq<seq<CoId>>, top: nat, waiting: set<CoId>, next: CoId)
    requires ReadyOk(levels, priority, ready, top) && PlacesOk(levels, priority, ready, waiting, {})
    requires next in ready[top]
    ensures next in priority && next !in waiting && priority[next] == top
    ensures forall c :: c in priority && c !in waiting ==> priority[c] <= priority[next]
  {
    forall c | c in priority && c !in waiting ensures priority[c] <= top {
      assert c in ready[priority[c]];
    }
  }

  lemma NothingReady(levels: nat, priority: map<CoId, nat>, ready: seq<seq<CoId>>, top: nat, waiting: set<CoId>)
    requires ReadyOk(levels, priority, ready, top) && PlacesOk(levels, priority, ready, waiting, {})
    requires top == 0 && ready[0] == []
    ensures forall c :: c in priority ==> c in waiting
  {
    forall c | c in priority ensures c in waiting {
      assert ready[priority[c]] == [];
    }
  }

  lemma NextTick(clock: nat)
    ensures Stored(clock + 1) == 0 <==> Stored(clock) == MAX_DELAY
    ensures Epoch(clock + 1) == if Stored(clock) == MAX_DELAY then Epoch(clock) + 1 else Epoch(clock)
  {
    StoredParts(clock);
    StoredParts(clock + 1);
  }

  /** The tick at which a delay ends that was asked to end at `due`, seen from tick `from`. */
  function EndTick(due: nat, from: nat): nat {
    if due == from then from + 1 else due
  }

  /** From tick `from` to tick `to`: exactly the delays with an end by then ran out, each recorded
      once with its own end. */
  ghost predicate RanOut(waiting: set<CoId>, still: set<CoId>, before: History, after: History,
                         due: map<CoId, nat>, from: nat, to: nat) {
    && still <= waiting <= due.Keys
    && (forall c :: c in waiting ==> from <= due[c] && (c in still <==> to < EndTick(due[c], from)))
    && (forall c :: Past(after, c)
          == Past(before, c) + (if c in waiting && c !in still then [TimedOut(EndTick(due[c], from))] else []))
  }

  lemma NothingRanOut(delayed: seq<Entry>, overflow: seq<Entry>, history: History, due: map<CoId, nat>,
                      epoch: nat, next: nat, clock: nat)
    requires DueIn(delayed, due, epoch, clock) && DueIn(overflow, due, next, clock)
    ensures var waiting := Owners(delayed) + Owners(overflow);
            RanOut(waiting, waiting, history, history, due, clock, clock)
  {
  }

  lemma RanOutStep(waiting: set<CoId>, now: set<CoId>, still: set<CoId>, before: History, history: History,
                   after: History, due: map<CoId, nat>, from: nat, at: nat)
    requires from <= at && RanOut(waiting, now, before, history, due, from, at) && still <= now
    requires forall c :: c in now ==> (c in still <==> at + 1 < due[c])
    requires Logged(history, after, now - still, TimedOut(at + 1))
    ensures RanOut(waiting, still, before, after, due, from, at + 1)
  {
    hide Past;
    forall c | c in now ensures c in still <==> at + 1 < EndTick(due[c], from) {
    }
    forall c
      ensures Past(after, c)
           == Past(before, c) + (if c in waiting && c !in still then [TimedOut(EndTick(due[c], from))] else [])
    {
      if c in now && c !in still {
        AtThisTick(Past(before, c), Past(history, c), Past(after, c), due[c], from, at);
      } else {
        AsBefore(Past(history, c), Past(after, c));
      }
    }
  }

  lemma AtThisTick(before: seq<DelayEvent>, past: seq<DelayEvent>, after: seq<DelayEvent>, due: nat, from: nat, at: nat)
    requires from <= at < EndTick(due, from) && due <= at + 1 && from <= due
    requires past == before + [] && after == past + [TimedOut(at + 1)]
    ensures after == before + [TimedOut(EndTick(due, from))]
  {
    assert past == before;
  }

  lemma AsBefore(past: seq<DelayEvent>, after: seq<DelayEvent>)
    requires after == past + []
    ensures after == past
  {
  }

  /** At the last tick before the wrap no delay of this epoch is left, so that the list is at once one
      for the epoch after the next. */
  lemma LastTick(delayed: seq<Entry>, overflow: seq<Entry>, due: map<CoId, nat>, clock: nat)
    requires DueIn(delayed, due, Epoch(clock), clock + 1) && DueIn(overflow, due, Epoch(clock) + 1, clock + 1)
    ensures DueIn(delayed, due, ListEpoch(clock), clock) && DueIn(overflow, due, Epoch(clock) + 1, clock)
  {
    StoredParts(clock);
    if delayed != [] {
      assert delayed[0] in delayed;
      StoredParts(due[delayed[0].owner]);
    }
  }

  /** What has run out so far at tick `at`: only delays that end by then, each recorded once. */
  ghost predicate Expired(waiting: set<CoId>, now: set<CoId>, before: History, history: History,
                          due: map<CoId, nat>, at: nat) {
    && now <= waiting
    && (forall c :: c in waiting && c !in now ==> c in due && due[c] <= at)
    && Logged(before, history, waiting - now, TimedOut(at))
  }

  lemma NothingExpired(waiting: set<CoId>, history: History, due: map<CoId, nat>, at: nat)
    ensures Expired(waiting, waiting, history, history, due, at)
  {
  }

  lemma OneExpired(waiting: set<CoId>, now: set<CoId>, before: History, history: History, due: map<CoId, nat>,
                   at: nat, c: CoId)
    requires Expired(waiting, now, before, history, due, at) && c in now && c in due && due[c] <= at
    ensures Expired(waiting, now - {c}, before, Recorded(history, c, TimedOut(at)), due, at)
  {
    OneLogged(before, history, waiting - now, c, TimedOut(at));
    assert waiting - (now - {c}) == waiting - now + {c};
  }

  lemma AllExpired(waiting: set<CoId>, now: set<CoId>, before: History, history: History, due: map<CoId, nat>,
                   at: nat)
    requires Expired(waiting, now, before, history, due, at) && waiting <= due.Keys
    requires forall c :: c in now ==> c in due && at < due[c]
    ensures now <= waiting && Logged(before, history, waiting - now, TimedOut(at))
    ensures forall c :: c in waiting ==> (c in now <==> at < due[c])
  {
  }

  lemma NothingLogged(history: History, waiting: set<CoId>, event: DelayEvent)
    ensures Logged(history, history, waiting - waiting, event)
  {
  }

  /** At the last tick of an epoch, only a delay of no ticks asked for just then is due after the next
      epoch. */
  lemma WakesBeyond(at: nat, ticks: Tick, clock: nat)
    requires Stored(clock) == MAX_DELAY && at <= clock < EndOf(at, ticks)
    ensures Epoch(WakeTime(at, ticks)) == Epoch(clock) + 2 <==> at == clock && ticks == 0
  {
    StoredParts(clock);
    StoredParts(at);
    StoredParts(WakeTime(at, ticks));
  }

  lemma OwnersDue(delayed: seq<Entry>, overflow: seq<Entry>, due: map<CoId, nat>, clock: nat)
    requires clock > 0 && DueIn(delayed, due, Epoch(clock), clock - 1) && DueIn(overflow, due, Epoch(clock) + 1, clock - 1)
    ensures Owners(delayed) + Owners(overflow) <= due.Keys
  {
  }

  /** Within an epoch the stored words compare as the ticks do. */
  lemma HeadIsDue(list: seq<Entry>, due: map<CoId, nat>, clock: nat)
    requires list != [] && clock > 0 && DueIn(list, due, Epoch(clock), clock - 1)
    ensures list[0].owner in due
    ensures Stored(clock) < list[0].value <==> clock < due[list[0].owner]
  {
    assert list[0] in list;
    StoredParts(clock);
    StoredParts(due[list[0].owner]);
  }

  /** If the head of a sorted list has not run out, nothing on it has. */
  lemma NotYetDue(list: seq<Entry>, other: seq<Entry>, due: map<CoId, nat>, clock: nat)
    requires DelaysOk(list, other) && clock > 0
    requires DueIn(list, due, Epoch(clock), clock - 1) && DueIn(other, due, Epoch(clock) + 1, clock - 1)
    requires list == [] || Stored(clock) < list[0].value
    ensures DueIn(list, due, Epoch(clock), clock + 1) && DueIn(other, due, Epoch(clock) + 1, clock + 1)
    ensures forall c :: c in Owners(list) + Owners(other) ==> c in due && clock < due[c]
  {
    StoredParts(clock);
    forall e | e in list ensures clock < due[e.owner] {
      var k :| 0 <= k < |list| && list[k] == e;
      StoredParts(due[e.owner]);
    }
    forall e | e in other ensures clock < due[e.owner] {
      StoredParts(due[e.owner]);
    }
  }

  lemma HeadIsOwner(list: seq<Entry>)
    ensures list != [] ==> list[0].owner in Owners(list)
  {
    if list != [] {
      assert list[0] in list;
    }
  }

  lemma PendingHead(levels: nat, priority: map<CoId, nat>, events: seq<seq<Entry>>, pending: seq<CoId>,
                    event: map<CoId, EventPlace>, waiting: set<CoId>)
    requires EventsOk(levels, priority, events, pending, event, waiting)
    ensures forall c :: c in pending ==> c in event && c in waiting
  {
  }

  lemma Unfiled(levels: nat, priority: map<CoId, nat>, ready: seq<seq<CoId>>, events: seq<seq<Entry>>, pending: seq<CoId>,
                event: map<CoId, EventPlace>, list: seq<Entry>, other: seq<Entry>, c: CoId)
    requires DelaysOk(list, other) && c in Owners(list) + Owners(other) && c !in event
    requires PlacesOk(levels, priority, ready, Owners(list) + Owners(other), {})
    requires EventsOk(levels, priority, events, pending, event, Owners(list) + Owners(other))
    ensures DelaysOk(Without(list, c), Without(other, c))
    ensures Owners(Without(list, c)) + Owners(Without(other, c)) == Owners(list) + Owners(other) - {c}
    ensures PlacesOk(levels, priority, ready, Owners(Without(list, c)) + Owners(Without(other, c)), {c})
    ensures EventsOk(levels, priority, events, pending, event, Owners(Without(list, c)) + Owners(Without(other, c)))
  {
    var waiting := Owners(list) + Owners(other);
    DelayRemoved(list, c, map[], 0, 0);
    DelayRemoved(other, c, map[], 0, 0);
    hide Without;
    assert Owners(Without(list, c)) + Owners(Without(other, c)) == waiting - {c};
    PlacesMoved(levels, priority, ready, waiting, {}, c);
    assert {} + {c} == {c};
    EventsElsewhere(levels, priority, events, pending, event, waiting, c);
  }

  lemma UnfiledInTime(list: seq<Entry>, c: CoId, due: map<CoId, nat>, epoch: nat, from: nat)
    requires DueIn(list, due, epoch, from)
    ensures DueIn(Without(list, c), due, epoch, from)
  {
    WithoutMembers(list, c);
  }

  lemma SomeoneWaits(levels: nat, priority: map<CoId, nat>, events: seq<seq<Entry>>, pending: seq<CoId>,
                     event: map<CoId, EventPlace>, waiting: set<CoId>, i: nat)
    requires EventsOk(levels, priority, events, pending, event, waiting) && i < |events| && events[i] != []
    ensures priority != map[]
  {
    assert EventListOk(levels, priority, events[i], event, i);
    assert events[i][0] in events[i];
    assert events[i][0].owner in priority;
  }

  lemma NoEvent(levels: nat, priority: map<CoId, nat>, events: seq<seq<Entry>>, pending: seq<CoId>,
                event: map<CoId, EventPlace>, waiting: set<CoId>, c: CoId)
    requires EventsOk(levels, priority, events, pending, event, waiting) && c !in waiting
    ensures c !in event && event.Keys <= waiting
  {
  }

  lemma PlaceOf(levels: nat, priority: map<CoId, nat>, ready: seq<seq<CoId>>, top: nat, waiting: set<CoId>,
                transit: set<CoId>, c: CoId)
    requires ReadyOk(levels, priority, ready, top) && PlacesOk(levels, priority, ready, waiting, transit)
    ensures |ready| == levels && top < levels
    ensures c in transit || c in waiting ==> c in priority
    ensures c in priority ==> priority[c] < levels && (c in ready[priority[c]] <==> c !in waiting && c !in transit)
  {
  }

  /** A new co-routine is on no list yet. */
  lemma Created(levels: nat, priority: map<CoId, nat>, ready: seq<seq<CoId>>, top: nat, waiting: set<CoId>,
                events: seq<seq<Entry>>, pending: seq<CoId>, event: map<CoId, EventPlace>, c: CoId, p: nat)
    requires ReadyOk(levels, priority, ready, top) && PlacesOk(levels, priority, ready, waiting, {})
    requires EventsOk(levels, priority, events, pending, event, waiting)
    requires c !in priority && p < levels
    ensures var after := priority[c := p];
            && ReadyOk(levels, after, ready, top)
            && PlacesOk(levels, after, ready, waiting, {c})
            && EventsOk(levels, after, events, pending, event, waiting)
  {
    var after := priority[c := p];
    forall i | 0 <= i < |events| ensures EventListOk(levels, after, events[i], event, i) {
      assert EventListOk(levels, priority, events[i], event, i);
    }
  }
}
