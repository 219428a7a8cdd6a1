/** Kernel queues: a byte ring that accepts items at both ends, and the protocol that lets tasks
    and interrupts share it without losing a wakeup. */
module Queues {
  import opened Sequences
  import opened RingModel

  type Task = nat

  datatype Position = ToBack | ToFront | Overwrite

  /** Where a task stands in its call.  The top of the loop is one critical section; a task that
      found no room or no data next suspends the scheduler to put itself to sleep. */
  datatype Phase =
    | Away
    | Sending(item: Item, position: Position)
    | SendBlocking(item: Item, position: Position)
    | SendAsleep(item: Item, position: Position)
    | Receiving(peek: bool)
    | ReceiveBlocking(peek: bool)
    | ReceiveAsleep(peek: bool)
    | ReceiveExpired(peek: bool)

  const UNLOCKED: int := -1
  const LOCK_MAX: int := 127

  /** The lock counts are 8-bit signed. */
  function Increment(lock: int): int {
    if lock == LOCK_MAX then -128 else lock + 1
  }

  /** So they go from 127 to -128. */
  lemma EightBits(lock: int)
    requires -128 <= lock <= 127
    ensures -128 <= Increment(lock) <= 127 && (Increment(lock) - lock - 1) % 256 == 0
    ensures lock == LOCK_MAX <==> lock == 127
  {
  }

  function Deferred(lock: int): nat {
    if lock > 0 then lock else 0
  }

  /** No wakeup is lost: while somebody waits for `amount` things to become available, each of them
      is accounted for by a task that has been woken and has not run yet, or by the lock count. */
  predicate Covered(waiting: bool, amount: int, woken: nat, lock: int) {
    waiting ==> amount <= woken + Deferred(lock)
  }

  /** An interrupt that finds the queue locked counts instead of waking.  This covers the new item
      exactly when the count does not overflow or the woken tasks cover it anyway. */
  lemma LockedInterrupt(amount: nat, woken: nat, lock: int)
    requires 0 <= lock <= LOCK_MAX && Covered(true, amount, woken, lock)
    ensures Covered(true, amount + 1, woken, Increment(lock)) <==> (lock < LOCK_MAX || amount + 1 <= woken)
  {
  }

  /** What happened to the items.  `overflow` marks an interrupt that found the lock count at its
      maximum, `overlooked` a reset after which the senders' cover fails. */
  datatype Event =
    | Accepted(item: Item, position: Position, overflow: bool)
    | Received(item: Item, overflow: bool)
    | Emptied(overlooked: bool)

  function Entered(items: seq<Item>, item: Item, position: Position): (r: seq<Item>) {
    match position
    case ToBack => items + [item]
    case ToFront => [item] + items
    case Overwrite => [item]
  }

  function After(items: seq<Item>, event: Event): (r: seq<Item>) {
    if event.Accepted? then Entered(items, event.item, event.position)
    else if event.Emptied? || items == [] then []
    else items[1..]
  }

  /** The items that are inside after those events. */
  function Replay(log: seq<Event>): (r: seq<Item>) {
    if log == [] then [] else After(Replay(log[..|log| - 1]), log[|log| - 1])
  }

  /** Every item received was the first one inside, and there was never too much inside. */
  predicate Legal(log: seq<Event>, length: nat) {
    log == [] || (
      var before, event := log[..|log| - 1], log[|log| - 1];
      && Legal(before, length) && |Replay(log)| <= length
      && (event.Received? ==> Replay(before) != [] && Replay(before)[0] == event.item))
  }

  lemma ReplayNext(log: seq<Event>, event: Event, length: nat)
    ensures Replay(log + [event]) == After(Replay(log), event)
    ensures Legal(log + [event], length) <==>
            && Legal(log, length) && |Replay(log + [event])| <= length
            && (event.Received? ==> Replay(log) != [] && Replay(log)[0] == event.item)
  {
    hide After;
    assert (log + [event])[..|log|] == log;
  }

  function AcceptedItems(log: seq<Event>): (r: seq<Item>) {
    if log == [] then [] else
      AcceptedItems(log[..|log| - 1])
      + if log[|log| - 1].Accepted? then [log[|log| - 1].item] else []
  }

  function ReceivedItems(log: seq<Event>): (r: seq<Item>) {
    if log == [] then [] else
      ReceivedItems(log[..|log| - 1])
      + if log[|log| - 1].Received? then [log[|log| - 1].item] else []
  }

  /** What a run may do: send to the back only; keep the lock counts below their maximum; reset. */
  datatype Rules = Rules(backOnly: bool, counted: bool, resets: bool)

  predicate Allowed(event: Event, rules: Rules) {
    match event
    case Accepted(_, position, overflow) => (rules.backOnly ==> position == ToBack) && (rules.counted ==> !overflow)
    case Received(_, overflow) => rules.counted ==> !overflow
    case Emptied(_) => rules.resets
  }

  ghost predicate Within(log: seq<Event>, rules: Rules) {
    forall event :: event in log ==> Allowed(event, rules)
  }

  lemma WithinNext(log: seq<Event>, event: Event, rules: Rules)
    ensures Within(log + [event], rules) <==> Within(log, rules) && Allowed(event, rules)
  {
    assert event in log + [event];
    assert forall e :: e in log ==> e in log + [event];
  }

  lemma ReplayBounded(log: seq<Event>, length: nat)
    requires Legal(log, length)
    ensures |Replay(log)| <= length
  {
    assert log[..|log|] == log;
  }

  /** First in, first out: when items enter at the back only, those received are the first of those
      accepted, and the rest, never more than the queue's length, is inside. */
  lemma {:induction false} ReceivedInOrder(log: seq<Event>, rules: Rules, length: nat)
    requires Legal(log, length) && Within(log, rules) && rules.backOnly && !rules.resets
    ensures ReceivedItems(log) + Replay(log) == AcceptedItems(log)
    ensures |AcceptedItems(log)| - |ReceivedItems(log)| <= length
  {
    hide Legal, Within;
    ReplayBounded(log, length);
    if log != [] {
      var before, event := log[..|log| - 1], log[|log| - 1];
      assert log == before + [event];
      ReplayNext(before, event, length);
      assert Within(before, rules) && Allowed(event, rules) by { WithinNext(before, event, rules); }
      ReceivedInOrder(before, rules, length);
      var received, inside := ReceivedItems(before), Replay(before);
      if event.Accepted? {
        Regroup(received, inside, [event.item]);
      } else {
        assert inside == [event.item] + inside[1..];
        Regroup(received, [event.item], inside[1..]);
      }
    }
  }

  /** An interrupt sent to a locked queue with the count at its maximum: from then on a receiver
      can be overlooked. */
  ghost predicate ReceiversOverlooked(log: seq<Event>) {
    exists event :: event in log && event.Accepted? && event.overflow
  }

  ghost predicate SendersOverlooked(log: seq<Event>) {
    exists event :: event in log && ((event.Received? && event.overflow) || (event.Emptied? && event.overlooked))
  }

  /** Only an overflow, or for the senders a reset, can spoil a cover. */
  lemma OverlookedNever(log: seq<Event>, rules: Rules)
    requires Within(log, rules) && rules.counted
    ensures !ReceiversOverlooked(log)
    ensures !rules.resets ==> !SendersOverlooked(log)
  {
  }

  class Queue {
    const length: nat
    const itemSize: nat
    const buffer: array<Byte>
    var writeTo: nat
    var readFrom: nat
    var messagesWaiting: nat
    var rxLock: int
    var txLock: int
    var waitingToSend: seq<Task>
    var waitingToReceive: seq<Task>
    // The tasks, as far as this queue is concerned.
    var phase: map<Task, Phase>
    ghost var wokenSenders: set<Task>
    ghost var wokenReceivers: set<Task>
    // The slot last read from, and the history of what went in and out.
    ghost var readSlot: nat
    ghost var log: seq<Event>

    /** The pointers describe `n` items after slot `r`. */
    ghost predicate Ring(r: nat, n: nat)
      reads `readFrom, `writeTo
    {
      && length > 0 && buffer.Length == length * itemSize
      && r < length
      && if itemSize == 0 then readFrom == writeTo == 0
         else readFrom == r * itemSize && writeTo == (r + 1 + n) % length * itemSize
    }

    ghost predicate RingValid()
      reads `readFrom, `writeTo, `messagesWaiting, `readSlot
    {
      Ring(readSlot, messagesWaiting) && messagesWaiting <= length
    }

    /** The items in the queue, front first. */
    ghost function Contents(): seq<Item>
      reads `messagesWaiting, `readSlot, buffer
      requires length > 0 && buffer.Length == length * itemSize
    {
      Items(buffer[..], itemSize, length, readSlot + 1, messagesWaiting)
    }

    /** memcpy into the storage area. */
    method CopyIn(at: nat, item: Item)
      requires at + |item| <= buffer.Length
      modifies buffer
      ensures buffer[..] == Write(old(buffer[..]), at, item)
    {
      var i := 0;
      while i < |item|
        invariant i <= |item|
        invariant buffer[..] == Write(old(buffer[..]), at, item[..i])
      {
        buffer[at + i] := item[i];
        i := i + 1;
        assert item[..i] == item[..i - 1] + [item[i - 1]];
      }
      assert item[..i] == item;
    }

    /** memcpy out of the storage area. */
    method CopyOut(at: nat) returns (item: Item)
      requires at + itemSize <= buffer.Length
      ensures item == buffer[at..at + itemSize]
    {
      item := [];
      while |item| < itemSize
        invariant |item| <= itemSize && item == buffer[at..at + |item|]
      {
        item := item + [buffer[at + |item|]];
      }
    }

    /** prvCopyDataToQueue: a back send appends, a front send prepends, an overwrite replaces.  Only
        overwriting a full queue of empty items leaves the count out of range. */
    method CopyDataToQueue(item: Item, position: Position)
      requires RingValid() && |item| == itemSize
      requires position == Overwrite ==> length == 1
      requires position != Overwrite ==> messagesWaiting < length
      modifies buffer, `writeTo, `readFrom, `messagesWaiting, `readSlot
      ensures RingValid() <==> (old(messagesWaiting) < length || itemSize > 0)
      ensures old(messagesWaiting) < length || itemSize > 0 ==>
        Contents() == match position
                      case ToBack => old(Contents()) + [item]
                      case ToFront => [item] + old(Contents())
                      case Overwrite => [item]
    {
      hide Items;
      if itemSize == 0 {
        EmptyItems(buffer[..], length, readSlot + 1, messagesWaiting);
        messagesWaiting := messagesWaiting + 1;
        EmptyItems(buffer[..], length, readSlot + 1, messagesWaiting);
      } else if position == ToBack {
        WriteBack(item);
        messagesWaiting := messagesWaiting + 1;
      } else {
        var waiting := messagesWaiting;
        if position == Overwrite && waiting > 0 {
          waiting := waiting - 1;
        }
        WriteFront(item, waiting);
        messagesWaiting := waiting + 1;
      }
    }

    /** The copy of a back send: after it the ring holds one item more. */
    method WriteBack(item: Item)
      requires RingValid() && |item| == itemSize > 0 && messagesWaiting < length
      modifies buffer, `writeTo
      ensures Ring(readSlot, messagesWaiting + 1)
      ensures Items(buffer[..], itemSize, length, readSlot + 1, messagesWaiting + 1) == old(Contents()) + [item]
    {
      hide Items;
      var slot := (readSlot + 1 + messagesWaiting) % length;
      BackSend(buffer[..], itemSize, length, readSlot + 1, messagesWaiting, item);
      NextPointer(slot, itemSize, length);
      NextModulo(readSlot + 1 + messagesWaiting, length);
      CopyIn(writeTo, item);
      writeTo := writeTo + itemSize;
      if writeTo >= buffer.Length {
        writeTo := 0;
      }
    }

    /** The copy of a front send or an overwrite, which leaves `waiting` of the items in place. */
    method WriteFront(item: Item, ghost waiting: nat)
      requires RingValid() && |item| == itemSize > 0
      requires waiting < length && (waiting == messagesWaiting || length == 1)
      modifies buffer, `readFrom, `readSlot
      ensures readSlot < length && Ring(readSlot, waiting + 1)
      ensures Items(buffer[..], itemSize, length, readSlot + 1, waiting + 1)
           == [item] + (if waiting == messagesWaiting then old(Contents()) else [])
    {
      hide Items;
      FrontSend(buffer[..], itemSize, length, readSlot, waiting, item);
      PreviousPointer(readSlot, itemSize, length);
      CopyIn(readFrom, item);
      FrontWrap(buffer[..], itemSize, length, readSlot, waiting + 1);
      FrontWrap(buffer[..], itemSize, length, readSlot, waiting);
      var back := readFrom - itemSize;
      if back < 0 {
        back := buffer.Length - itemSize;
      }
      readFrom := back;
      readSlot := if readSlot == 0 then length - 1 else readSlot - 1;
    }

    /** prvCopyDataFromQueue: step the read pointer and copy the item it reaches. */
    method CopyDataFromQueue() returns (item: Item)
      requires RingValid() && messagesWaiting > 0
      modifies `readFrom, `readSlot
      ensures [item] + Items(buffer[..], itemSize, length, readSlot + 1, messagesWaiting - 1) == old(Contents())
      ensures Ring(readSlot, messagesWaiting - 1)
    {
      hide Items;
      TakeFirst(buffer[..], itemSize, length, readSlot, messagesWaiting);
      if itemSize > 0 {
        NextPointer(readSlot, itemSize, length);
        SlotInside(itemSize, (readSlot + 1) % length, length);
        readFrom := readFrom + itemSize;
        if readFrom >= buffer.Length {
          readFrom := 0;
        }
      }
      readSlot := (readSlot + 1) % length;
      item := CopyOut(readFrom);
    }

    /** Items of the queue's size, and the one place an overwrite is meant for. */
    ghost predicate Sendable(item: Item, position: Position) {
      |item| == itemSize && (position == Overwrite ==> length == 1 && itemSize > 0)
    }

    /** Every task waits in at most one place, and the woken ones have not run yet. */
    ghost predicate TasksOk()
      reads `waitingToSend, `waitingToReceive, `phase, `wokenSenders, `wokenReceivers
    {
      && Distinct(waitingToSend) && Distinct(waitingToReceive)
      && (forall t :: t in waitingToSend ==> t in phase && phase[t].SendAsleep? && t !in wokenSenders)
      && (forall t :: t in waitingToReceive ==> t in phase && phase[t].ReceiveAsleep? && t !in wokenReceivers)
      && (forall t :: t in wokenSenders ==> t in phase && phase[t].SendAsleep?)
      && (forall t :: t in wokenReceivers ==> t in phase && phase[t].ReceiveAsleep?)
      && (forall t :: t in phase && (phase[t].Sending? || phase[t].SendBlocking? || phase[t].SendAsleep?)
            ==> Sendable(phase[t].item, phase[t].position))
    }

    /** The history explains the contents. */
    ghost predicate Recorded()
      reads `log, `messagesWaiting, `readSlot, buffer
      requires length > 0 && buffer.Length == length * itemSize
    {
      Replay(log) == Contents() && Legal(log, length)
    }

    ghost predicate ReceiversCovered(lock: int)
      reads `waitingToReceive, `wokenReceivers, `messagesWaiting
    {
      Covered(waitingToReceive != [], messagesWaiting, |wokenReceivers|, lock)
    }

    ghost predicate SendersCovered(lock: int)
      reads `waitingToSend, `wokenSenders, `messagesWaiting
    {
      Covered(waitingToSend != [], length - messagesWaiting, |wokenSenders|, lock)
    }

    ghost predicate Sound()
      reads this, buffer
    {
      && RingValid() && Recorded() && TasksOk()
      && -128 <= rxLock <= LOCK_MAX && -128 <= txLock <= LOCK_MAX
      && (ReceiversOverlooked(log) || UNLOCKED <= txLock)
      && (SendersOverlooked(log) || UNLOCKED <= rxLock)
    }

    ghost predicate Valid()
      reads this, buffer
    {
      && Sound()
      && (ReceiversOverlooked(log) || ReceiversCovered(txLock))
      && (SendersOverlooked(log) || SendersCovered(rxLock))
    }

    /** xTaskRemoveFromEventList on the receivers: the first one is woken. */
    method WakeReceiver()
      requires TasksOk() && waitingToReceive != []
      modifies `waitingToReceive, `wokenReceivers
      ensures TasksOk()
      ensures waitingToReceive == old(waitingToReceive)[1..]
      ensures wokenReceivers == old(wokenReceivers) + {old(waitingToReceive)[0]}
      ensures |wokenReceivers| == old(|wokenReceivers|) + 1
    {
      var t := waitingToReceive[0];
      assert t in waitingToReceive;
      waitingToReceive := waitingToReceive[1..];
      wokenReceivers := wokenReceivers + {t};
      assert forall u :: u in waitingToReceive ==> u in old(waitingToReceive) && u != t;
    }

    method WakeSender()
      requires TasksOk() && waitingToSend != []
      modifies `waitingToSend, `wokenSenders
      ensures TasksOk()
      ensures waitingToSend == old(waitingToSend)[1..]
      ensures wokenSenders == old(wokenSenders) + {old(waitingToSend)[0]}
      ensures |wokenSenders| == old(|wokenSenders|) + 1
    {
      var t := waitingToSend[0];
      assert t in waitingToSend;
      waitingToSend := waitingToSend[1..];
      wokenSenders := wokenSenders + {t};
      assert forall u :: u in waitingToSend ==> u in old(waitingToSend) && u != t;
    }

    /** Put an item in and write the history. */
    method Put(item: Item, position: Position, ghost overflow: bool)
      requires RingValid() && Recorded() && Sendable(item, position)
      requires messagesWaiting < length || position == Overwrite
      modifies buffer, `writeTo, `readFrom, `messagesWaiting, `readSlot, `log
      ensures RingValid() && Recorded()
      ensures Contents() == Entered(old(Contents()), item, position)
      ensures messagesWaiting == if position == Overwrite && old(messagesWaiting) > 0 then old(messagesWaiting)
                                 else old(messagesWaiting) + 1
      ensures log == old(log) + [Accepted(item, position, overflow)]
    {
      hide Items, Replay, Legal;
      ghost var before := Contents();
      CopyDataToQueue(item, position);
      assert |Contents()| == messagesWaiting && |before| == old(messagesWaiting);
      ReplayNext(log, Accepted(item, position, overflow), length);
      log := log + [Accepted(item, position, overflow)];
    }

    /** Take the first item out and write the history. */
    method Take(ghost overflow: bool) returns (item: Item)
      requires RingValid() && Recorded() && messagesWaiting > 0
      modifies `readFrom, `messagesWaiting, `readSlot, `log
      ensures RingValid() && Recorded()
      ensures [item] + Contents() == old(Contents())
      ensures messagesWaiting == old(messagesWaiting) - 1
      ensures log == old(log) + [Received(item, overflow)]
    {
      hide Items, Replay, Legal;
      item := CopyDataFromQueue();
      messagesWaiting := messagesWaiting - 1;
      ReplayNext(log, Received(item, overflow), length);
      log := log + [Received(item, overflow)];
    }

    /** xQueueGenericSendFromISR, and xQueueGiveFromISR when the items are empty. */
    method SendFromISR(item: Item, position: Position) returns (ok: bool)
      requires Valid() && Sendable(item, position)
      modifies this, buffer
      ensures Valid()
      ensures ok <==> old(messagesWaiting) < length || position == Overwrite
      ensures ok ==> Contents() == Entered(old(Contents()), item, position)
      ensures !ok ==> Contents() == old(Contents())
      ensures log == old(log) + (if ok then [Accepted(item, position, old(txLock) == LOCK_MAX)] else [])
      ensures txLock == if ok && old(txLock) != UNLOCKED then Increment(old(txLock)) else old(txLock)
      ensures waitingToReceive == if ok && old(txLock) == UNLOCKED && old(waitingToReceive) != []
                                  then old(waitingToReceive)[1..] else old(waitingToReceive)
      ensures rxLock == old(rxLock) && phase == old(phase) && waitingToSend == old(waitingToSend)
      ensures SendsCounted() && ReceivesCounted() && NobodyDropped()
    {
      hide Ring, Recorded, TasksOk, Items, Replay, Legal;
      if messagesWaiting < length || position == Overwrite {
        var lock := txLock;
        Put(item, position, lock == LOCK_MAX);
        if lock == UNLOCKED {
          if waitingToReceive != [] {
            WakeReceiver();
          }
        } else {
          txLock := Increment(lock);
        }
        ok := true;
      } else {
        ok := false;
      }
    }

    /** xQueueReceiveFromISR. */
    method ReceiveFromISR() returns (ok: bool, item: Item)
      requires Valid()
      modifies this
      ensures Valid()
      ensures ok <==> old(messagesWaiting) > 0
      ensures ok ==> [item] + Contents() == old(Contents())
      ensures !ok ==> Contents() == old(Contents())
      ensures log == old(log) + (if ok then [Received(item, old(rxLock) == LOCK_MAX)] else [])
      ensures rxLock == if ok && old(rxLock) != UNLOCKED then Increment(old(rxLock)) else old(rxLock)
      ensures waitingToSend == if ok && old(rxLock) == UNLOCKED && old(waitingToSend) != []
                               then old(waitingToSend)[1..] else old(waitingToSend)
      ensures txLock == old(txLock) && phase == old(phase) && waitingToReceive == old(waitingToReceive)
      ensures SendsCounted() && ReceivesCounted() && NobodyDropped()
    {
      hide Ring, Recorded, TasksOk, Items, Replay, Legal;
      item := [];
      if messagesWaiting > 0 {
        var lock := rxLock;
        item := Take(lock == LOCK_MAX);
        if lock == UNLOCKED {
          if waitingToSend != [] {
            WakeSender();
          }
        } else {
          rxLock := Increment(lock);
        }
        ok := true;
      } else {
        ok := false;
      }
    }

    /** xQueuePeekFromISR: the read pointer is put back. */
    method PeekFromISR() returns (ok: bool, item: Item)
      requires Valid()
      modifies `readFrom, `readSlot
      ensures Valid()
      ensures Contents() == old(Contents()) && readFrom == old(readFrom)
      ensures ok <==> messagesWaiting > 0
      ensures ok ==> item == Contents()[0]
    {
      hide Items, TasksOk;
      item := [];
      ok := messagesWaiting > 0;
      if ok {
        var original := readFrom;
        ghost var slot := readSlot;
        item := CopyDataFromQueue();
        readFrom := original;
        readSlot := slot;
      }
    }

    /** What interrupts do to a locked queue: no receiver is woken, and each item that comes is
        counted, unless a count overflows. */
    twostate predicate SendsCounted()
      reads this
    {
      old(txLock) >= 0 && !ReceiversOverlooked(log) ==>
        && waitingToReceive == old(waitingToReceive) && wokenReceivers == old(wokenReceivers)
        && old(txLock) <= txLock
        && messagesWaiting <= old(messagesWaiting) + (txLock - old(txLock))
    }

    /** No sender is woken, and each item that goes is counted. */
    twostate predicate ReceivesCounted()
      reads this
    {
      old(rxLock) >= 0 && !SendersOverlooked(log) ==>
        && waitingToSend == old(waitingToSend) && wokenSenders == old(wokenSenders)
        && old(rxLock) <= rxLock
        && old(messagesWaiting) <= messagesWaiting + (rxLock - old(rxLock))
    }

    /** Who waited still waits or has been woken, and the woken have not been forgotten. */
    twostate predicate NobodyDropped()
      reads `waitingToSend, `waitingToReceive, `wokenSenders, `wokenReceivers
    {
      && old(wokenSenders) <= wokenSenders && old(wokenReceivers) <= wokenReceivers
      && (forall t :: t in old(waitingToSend) ==> t in waitingToSend || t in wokenSenders)
      && (forall t :: t in old(waitingToReceive) ==> t in waitingToReceive || t in wokenReceivers)
    }

    /** The history has gone on by the rules. */
    twostate predicate Played(rules: Rules)
      reads `log
    {
      old(log) <= log && (Within(old(log), rules) ==> Within(log, rules))
    }

    predicate Obeys(item: Item, position: Position, rules: Rules) {
      && |item| == itemSize && (position == Overwrite ==> length == 1 && itemSize > 0)
      && (rules.backOnly ==> position == ToBack)
    }

    /** Any number of interrupts. */
    method Interrupts(rules: Rules)
      requires Valid()
      modifies this, buffer
      ensures Valid()
      ensures phase == old(phase) && Played(rules)
      ensures old(rxLock) == UNLOCKED ==> rxLock == UNLOCKED
      ensures old(txLock) == UNLOCKED ==> txLock == UNLOCKED
      ensures forall t :: t in waitingToSend ==> t in old(waitingToSend)
      ensures forall t :: t in waitingToReceive ==> t in old(waitingToReceive)
      ensures SendsCounted() && ReceivesCounted() && NobodyDropped()
    {
      hide Ring, Recorded, TasksOk, Items, Covered, Replay, Legal;
      var n: nat := *;
      while n > 0
        invariant Valid()
        invariant phase == old(phase) && Played(rules)
        invariant old(rxLock) == UNLOCKED ==> rxLock == UNLOCKED
        invariant old(txLock) == UNLOCKED ==> txLock == UNLOCKED
        invariant forall t :: t in waitingToSend ==> t in old(waitingToSend)
        invariant forall t :: t in waitingToReceive ==> t in old(waitingToReceive)
        invariant SendsCounted() && ReceivesCounted() && NobodyDropped()
      {
        if * {
          var item: Item, position: Position := *, *;
          if Obeys(item, position, rules) && (rules.counted ==> txLock < LOCK_MAX) {
            var _ := SendFromISR(item, position);
          }
        } else if * {
          if rules.counted ==> rxLock < LOCK_MAX {
            var _, _ := ReceiveFromISR();
          }
        } else {
          var _, _ := PeekFromISR();
        }
        n := n - 1;
      }
    }

    ghost predicate Unlocked()
      reads `rxLock, `txLock
    {
      rxLock == UNLOCKED && txLock == UNLOCKED
    }

    method LockQueue()
      requires Valid()
      modifies `rxLock, `txLock
      ensures Valid()
      ensures rxLock == (if old(rxLock) == UNLOCKED then 0 else old(rxLock))
      ensures txLock == (if old(txLock) == UNLOCKED then 0 else old(txLock))
    {
      hide Ring, Recorded, TasksOk;
      if rxLock == UNLOCKED {
        rxLock := 0;
      }
      if txLock == UNLOCKED {
        txLock := 0;
      }
    }

    /** The first critical section of prvUnlockQueue: each item that came wakes one receiver. */
    method UnlockSends()
      requires Valid()
      modifies `txLock, `waitingToReceive, `wokenReceivers
      ensures Valid() && txLock == UNLOCKED
      ensures forall t :: t in waitingToReceive ==> t in old(waitingToReceive)
      ensures WokenOf(Fewer(Deferred(old(txLock)), |old(waitingToReceive)|), old(waitingToReceive), waitingToReceive, old(wokenReceivers), wokenReceivers)
    {
      hide WokenOf, RingValid, Recorded, TasksOk, ReceiversOverlooked, SendersOverlooked;
      var count := txLock;
      ghost var n := 0;
      NoneWoken(waitingToReceive, wokenReceivers);
      while count > 0
        invariant Sound()
        invariant ReceiversOverlooked(log) || ReceiversCovered(count)
        invariant txLock == old(txLock)
        invariant n <= |old(waitingToReceive)| && count == txLock - n && (n == 0 || count >= 0)
        invariant WokenOf(n, old(waitingToReceive), waitingToReceive, old(wokenReceivers), wokenReceivers)
      {
        AllWoken(n, old(waitingToReceive), waitingToReceive, old(wokenReceivers), wokenReceivers);
        if waitingToReceive == [] {
          break;
        }
        ghost var waits, woken := waitingToReceive, wokenReceivers;
        WakeReceiver();
        count := count - 1;
        OneMoreWoken(n, old(waitingToReceive), waits, old(wokenReceivers), woken, waitingToReceive, wokenReceivers);
        n := n + 1;
      }
      AllWoken(n, old(waitingToReceive), waitingToReceive, old(wokenReceivers), wokenReceivers);
      txLock := UNLOCKED;
    }

    /** The second critical section: each item that went wakes one sender. */
    method UnlockReceives()
      requires Valid()
      modifies `rxLock, `waitingToSend, `wokenSenders
      ensures Valid() && rxLock == UNLOCKED
      ensures forall t :: t in waitingToSend ==> t in old(waitingToSend)
      ensures WokenOf(Fewer(Deferred(old(rxLock)), |old(waitingToSend)|), old(waitingToSend), waitingToSend, old(wokenSenders), wokenSenders)
    {
      hide WokenOf, RingValid, Recorded, TasksOk, ReceiversOverlooked, SendersOverlooked;
      var count := rxLock;
      ghost var n := 0;
      NoneWoken(waitingToSend, wokenSenders);
      while count > 0
        invariant Sound()
        invariant SendersOverlooked(log) || SendersCovered(count)
        invariant rxLock == old(rxLock)
        invariant n <= |old(waitingToSend)| && count == rxLock - n && (n == 0 || count >= 0)
        invariant WokenOf(n, old(waitingToSend), waitingToSend, old(wokenSenders), wokenSenders)
      {
        AllWoken(n, old(waitingToSend), waitingToSend, old(wokenSenders), wokenSenders);
        if waitingToSend == [] {
          break;
        }
        ghost var waits, woken := waitingToSend, wokenSenders;
        WakeSender();
        count := count - 1;
        OneMoreWoken(n, old(waitingToSend), waits, old(wokenSenders), woken, waitingToSend, wokenSenders);
        n := n + 1;
      }
      AllWoken(n, old(waitingToSend), waitingToSend, old(wokenSenders), wokenSenders);
      rxLock := UNLOCKED;
    }

    lemma StillWaits(n: nat, waited: seq<Task>, before: set<Task>, woken: set<Task>, waiting: seq<Task>)
      requires WokenOf(n, waited, waiting, before, woken)
      ensures before <= woken && (forall t :: t in waited ==> t in waiting || t in woken)
      ensures forall t :: t in waiting ==> t in waited
    {
      assert waited == waited[..n] + waited[n..];
    }

    /** prvUnlockQueue: two critical sections, with interrupts between them. */
    method UnlockQueue(rules: Rules)
      requires Valid()
      modifies this, buffer
      ensures Valid() && Unlocked()
      ensures phase == old(phase) && Played(rules) && NobodyDropped()
      ensures forall t :: t in waitingToSend ==> t in old(waitingToSend)
      ensures forall t :: t in waitingToReceive ==> t in old(waitingToReceive)
    {
      hide WokenOf, Valid, RingValid, Recorded, TasksOk, Within;
      ghost var receivers, wokenReceivers0 := waitingToReceive, wokenReceivers;
      UnlockSends();
      StillWaits(Fewer(Deferred(old(txLock)), |receivers|), receivers, wokenReceivers0, wokenReceivers, waitingToReceive);
      Interrupts(rules);
      ghost var senders, wokenSenders0, count := waitingToSend, wokenSenders, Deferred(rxLock);
      UnlockReceives();
      StillWaits(Fewer(count, |senders|), senders, wokenSenders0, wokenSenders, waitingToSend);
    }

    /** The task `t` runs again, or goes on with its call, in phase `next`. */
    method Resume(t: Task, next: Phase)
      requires TasksOk()
      requires t !in waitingToSend && t !in waitingToReceive
      requires next.Away? || next.SendBlocking? || next.ReceiveBlocking? || next.Sending? || next.Receiving? || next.ReceiveExpired?
      requires next.Sending? || next.SendBlocking? ==> Sendable(next.item, next.position)
      modifies `phase, `wokenSenders, `wokenReceivers
      ensures TasksOk()
      ensures phase == old(phase)[t := next]
      ensures wokenSenders == old(wokenSenders) - {t} && wokenReceivers == old(wokenReceivers) - {t}
      ensures |wokenSenders| >= old(|wokenSenders|) - 1 && |wokenReceivers| >= old(|wokenReceivers|) - 1
      ensures t !in old(wokenSenders) ==> |wokenSenders| == old(|wokenSenders|)
      ensures t !in old(wokenReceivers) ==> |wokenReceivers| == old(|wokenReceivers|)
    {
      wokenSenders := wokenSenders - {t};
      wokenReceivers := wokenReceivers - {t};
      phase := phase[t := next];
      if t !in old(wokenSenders) {
        assert wokenSenders == old(wokenSenders);
      }
      if t !in old(wokenReceivers) {
        assert wokenReceivers == old(wokenReceivers);
      }
    }

    method SendNow(t: Task, item: Item, position: Position)
      requires Valid() && Unlocked() && Sendable(item, position)
      requires messagesWaiting < length || position == Overwrite
      requires t !in waitingToSend && t !in waitingToReceive && t !in wokenReceivers
      modifies this, buffer
      ensures Valid() && Unlocked()
      ensures Contents() == Entered(old(Contents()), item, position)
      ensures log == old(log) + [Accepted(item, position, false)]
      ensures phase == old(phase)[t := Away]
      ensures waitingToSend == old(waitingToSend)
      ensures waitingToReceive == if old(waitingToReceive) == [] then [] else old(waitingToReceive)[1..]
    {
      hide Ring, Recorded, TasksOk, Items, Contents, Replay, Legal;
      Deliver(item, position);
      Resume(t, Away);
    }

    method ReceiveNow(t: Task) returns (item: Item)
      requires Valid() && Unlocked() && messagesWaiting > 0
      requires t !in waitingToSend && t !in waitingToReceive && t !in wokenSenders
      modifies this
      ensures Valid() && Unlocked()
      ensures [item] + Contents() == old(Contents())
      ensures log == old(log) + [Received(item, false)]
      ensures phase == old(phase)[t := Away]
      ensures waitingToSend == if old(waitingToSend) == [] then [] else old(waitingToSend)[1..]
      ensures waitingToReceive == old(waitingToReceive)
    {
      hide Ring, Recorded, TasksOk, Items, Contents, Replay, Legal;
      item := Collect();
      Resume(t, Away);
    }

    method PeekNow(t: Task) returns (item: Item)
      requires Valid() && Unlocked() && messagesWaiting > 0
      requires t !in waitingToSend && t !in waitingToReceive && t !in wokenSenders
      modifies `readFrom, `readSlot, `waitingToReceive, `wokenReceivers, `phase, `wokenSenders
      ensures Valid() && Unlocked()
      ensures Contents() == old(Contents()) && |Contents()| > 0 && item == Contents()[0]
      ensures log == old(log)
      ensures phase == old(phase)[t := Away]
      ensures waitingToSend == old(waitingToSend)
      ensures waitingToReceive == if old(waitingToReceive) == [] then [] else old(waitingToReceive)[1..]
    {
      hide Ring, RingValid, Recorded, TasksOk, Items, Contents, Replay, Legal, ReceiversOverlooked, SendersOverlooked, Sendable;
      item := Look();
      Resume(t, Away);
    }

    /** The critical section at the top of xQueueGenericSend. */
    method AttemptSend(t: Task, noWait: bool) returns (sent: bool)
      requires Valid() && Unlocked()
      requires t in phase && (phase[t].Sending? || phase[t].SendAsleep?)
      requires t !in waitingToSend && t !in waitingToReceive && t !in wokenReceivers
      requires Sendable(phase[t].item, phase[t].position)
      modifies this, buffer
      ensures Valid() && Unlocked()
      ensures sent <==> old(messagesWaiting) < length || old(phase)[t].position == Overwrite
      ensures sent ==> Contents() == Entered(old(Contents()), old(phase)[t].item, old(phase)[t].position)
      ensures !sent ==> Contents() == old(Contents())
      ensures log == old(log) + (if sent then [Accepted(old(phase)[t].item, old(phase)[t].position, false)] else [])
      ensures phase == old(phase)[t := if sent || noWait then Away
                                       else SendBlocking(old(phase)[t].item, old(phase)[t].position)]
      ensures waitingToSend == old(waitingToSend)
      ensures waitingToReceive == if sent && old(waitingToReceive) != [] then old(waitingToReceive)[1..]
                                  else old(waitingToReceive)
    {
      hide RingValid, Recorded, TasksOk, Items, Contents;
      var item, position := phase[t].item, phase[t].position;
      if messagesWaiting < length || position == Overwrite {
        SendNow(t, item, position);
        sent := true;
      } else if noWait {
        Resume(t, Away);
        sent := false;
      } else {
        Resume(t, SendBlocking(item, position));
        sent := false;
      }
    }

    /** Put an item in and wake a receiver for it. */
    method Deliver(item: Item, position: Position)
      requires RingValid() && Recorded() && TasksOk() && Sendable(item, position)
      requires messagesWaiting < length || position == Overwrite
      modifies buffer, `writeTo, `readFrom, `messagesWaiting, `readSlot, `log
      modifies `waitingToReceive, `wokenReceivers
      ensures RingValid() && Recorded() && TasksOk()
      ensures Contents() == Entered(old(Contents()), item, position)
      ensures messagesWaiting == if position == Overwrite && old(messagesWaiting) > 0 then old(messagesWaiting)
                                 else old(messagesWaiting) + 1
      ensures log == old(log) + [Accepted(item, position, false)]
      ensures waitingToReceive == if old(waitingToReceive) == [] then [] else old(waitingToReceive)[1..]
      ensures |wokenReceivers| == old(|wokenReceivers|) + (if old(waitingToReceive) == [] then 0 else 1)
      ensures forall u :: u in wokenReceivers && u !in old(wokenReceivers) ==> u in old(waitingToReceive)
    {
      hide RingValid, Recorded, TasksOk, Items, Contents;
      Put(item, position, false);
      if waitingToReceive != [] {
        WakeReceiver();
      }
    }

    /** Take an item out and wake a sender for the room. */
    method Collect() returns (item: Item)
      requires RingValid() && Recorded() && TasksOk() && messagesWaiting > 0
      modifies `readFrom, `messagesWaiting, `readSlot, `log, `waitingToSend, `wokenSenders
      ensures RingValid() && Recorded() && TasksOk()
      ensures [item] + Contents() == old(Contents())
      ensures messagesWaiting == old(messagesWaiting) - 1
      ensures log == old(log) + [Received(item, false)]
      ensures waitingToSend == if old(waitingToSend) == [] then [] else old(waitingToSend)[1..]
      ensures |wokenSenders| == old(|wokenSenders|) + (if old(waitingToSend) == [] then 0 else 1)
      ensures forall u :: u in wokenSenders && u !in old(wokenSenders) ==> u in old(waitingToSend)
    {
      hide RingValid, Recorded, TasksOk, Items, Contents;
      item := Take(false);
      if waitingToSend != [] {
        WakeSender();
      }
    }

    /** Look at the first item and wake the next receiver for it. */
    method Look() returns (item: Item)
      requires RingValid() && Recorded() && TasksOk() && messagesWaiting > 0
      modifies `readFrom, `readSlot, `waitingToReceive, `wokenReceivers
      ensures RingValid() && Recorded() && TasksOk()
      ensures Contents() == old(Contents()) && |Contents()| > 0 && item == Contents()[0]
      ensures waitingToReceive == if old(waitingToReceive) == [] then [] else old(waitingToReceive)[1..]
      ensures |wokenReceivers| == old(|wokenReceivers|) + (if old(waitingToReceive) == [] then 0 else 1)
    {
      hide TasksOk, Items;
      var original := readFrom;
      ghost var slot := readSlot;
      item := CopyDataFromQueue();
      readFrom := original;
      readSlot := slot;
      if waitingToReceive != [] {
        WakeReceiver();
      }
    }

    /** The critical section at the top of xQueueGenericReceive.  A peek leaves the item and wakes the
        next waiting receiver for it. */
    method AttemptReceive(t: Task, noWait: bool) returns (got: bool, item: Item)
      requires Valid() && Unlocked()
      requires t in phase && (phase[t].Receiving? || phase[t].ReceiveAsleep?)
      requires t !in waitingToReceive && t !in waitingToSend && t !in wokenSenders
      modifies this, buffer
      ensures Valid() && Unlocked()
      ensures got <==> old(messagesWaiting) > 0
      ensures got ==> |old(Contents())| > 0 && item == old(Contents())[0]
      ensures Contents() == if got && !old(phase)[t].peek then old(Contents())[1..] else old(Contents())
      ensures log == old(log) + (if got && !old(phase)[t].peek then [Received(item, false)] else [])
      ensures phase == old(phase)[t := if got || noWait then Away else ReceiveBlocking(old(phase)[t].peek)]
      ensures waitingToSend == if got && !old(phase)[t].peek && old(waitingToSend) != []
                               then old(waitingToSend)[1..] else old(waitingToSend)
      ensures waitingToReceive == if got && old(phase)[t].peek && old(waitingToReceive) != []
                                  then old(waitingToReceive)[1..] else old(waitingToReceive)
    {
      hide RingValid, Recorded, TasksOk, Items, Contents;
      item := [];
      if messagesWaiting > 0 {
        if !phase[t].peek {
          item := ReceiveNow(t);
        } else {
          item := PeekNow(t);
        }
        got := true;
      } else {
        Resume(t, if noWait then Away else ReceiveBlocking(phase[t].peek));
        got := false;
      }
    }

    /** vTaskPlaceOnEventList on the receivers: the event list is in priority order, so the place may
        be any. */
    method PlaceReceiver(t: Task, at: nat, peek: bool)
      requires Valid() && at <= |waitingToReceive|
      requires ReceiversOverlooked(log) || messagesWaiting <= |wokenReceivers| + Deferred(txLock)
      requires t in phase && phase[t] == ReceiveBlocking(peek)
      modifies `waitingToReceive, `phase
      ensures Valid()
      ensures phase == old(phase)[t := ReceiveAsleep(peek)]
      ensures waitingToReceive == old(waitingToReceive)[..at] + [t] + old(waitingToReceive)[at..]
    {
      hide Ring, Recorded;
      PlacedDistinct(waitingToReceive, at, t);
      waitingToReceive := waitingToReceive[..at] + [t] + waitingToReceive[at..];
      phase := phase[t := ReceiveAsleep(peek)];
    }

    method PlaceSender(t: Task, at: nat, item: Item, position: Position)
      requires Valid() && at <= |waitingToSend|
      requires SendersOverlooked(log) || length - messagesWaiting <= |wokenSenders| + Deferred(rxLock)
      requires t in phase && phase[t] == SendBlocking(item, position)
      modifies `waitingToSend, `phase
      ensures Valid()
      ensures phase == old(phase)[t := SendAsleep(item, position)]
      ensures waitingToSend == old(waitingToSend)[..at] + [t] + old(waitingToSend)[at..]
    {
      hide Ring, Recorded;
      PlacedDistinct(waitingToSend, at, t);
      waitingToSend := waitingToSend[..at] + [t] + waitingToSend[at..];
      phase := phase[t := SendAsleep(item, position)];
    }

    /** Some moment of the history since `log` was `before` found nothing inside. */
    ghost predicate WasEmpty(before: seq<Event>)
      reads `log
    {
      exists k :: |before| <= k <= |log| && Replay(log[..k]) == []
    }

    ghost predicate WasNotEmpty(before: seq<Event>)
      reads `log
    {
      exists k :: |before| <= k <= |log| && Replay(log[..k]) != []
    }

    ghost predicate WasFull(before: seq<Event>)
      reads `log
    {
      exists k :: |before| <= k <= |log| && |Replay(log[..k])| == length
    }

    ghost predicate WasNotFull(before: seq<Event>)
      reads `log
    {
      exists k :: |before| <= k <= |log| && |Replay(log[..k])| < length
    }

    /** The check that the queue is still empty and the wait that follows from it.  What arrives in
        between is counted, and unlocking turns the count into wakeups. */
    method SleepIfEmpty(t: Task, peek: bool, rules: Rules) returns (isEmpty: bool)
      requires Valid() && (ReceiversOverlooked(log) || txLock >= 0)
      requires t in phase && phase[t] == ReceiveBlocking(peek)
      modifies this, buffer
      ensures Valid() && Unlocked() && Played(rules)
      ensures isEmpty <==> old(messagesWaiting) == 0
      ensures phase == old(phase)[t := if isEmpty then ReceiveAsleep(peek) else Receiving(peek)]
      ensures isEmpty ==> t in waitingToReceive || t in wokenReceivers
    {
      hide RingValid, Recorded, TasksOk, Sendable;
      isEmpty := messagesWaiting == 0;
      Interrupts(rules);
      if isEmpty {
        var at: nat :| at <= |waitingToReceive|;
        PlaceReceiver(t, at, peek);
        Interrupts(rules);
        UnlockQueue(rules);
      } else {
        UnlockQueue(rules);
        GoOn(t, Receiving(peek));
      }
    }

    method SleepIfFull(t: Task, item: Item, position: Position, rules: Rules) returns (isFull: bool)
      requires Valid() && (SendersOverlooked(log) || rxLock >= 0)
      requires t in phase && phase[t] == SendBlocking(item, position) && Sendable(item, position)
      modifies this, buffer
      ensures Valid() && Unlocked() && Played(rules)
      ensures isFull <==> old(messagesWaiting) == length
      ensures phase == old(phase)[t := if isFull then SendAsleep(item, position) else Sending(item, position)]
      ensures isFull ==> t in waitingToSend || t in wokenSenders
    {
      hide RingValid, Recorded, TasksOk, Sendable;
      isFull := messagesWaiting == length;
      Interrupts(rules);
      if isFull {
        var at: nat :| at <= |waitingToSend|;
        PlaceSender(t, at, item, position);
        Interrupts(rules);
        UnlockQueue(rules);
      } else {
        UnlockQueue(rules);
        GoOn(t, Sending(item, position));
      }
    }

    /** The part of xQueueGenericReceive that runs with the scheduler suspended: only interrupts
        interleave, and they find the queue locked.  A task whose time is not over goes to sleep exactly if
        the check finds the queue empty; then it is on the waiting list or has been woken already. */
    method SleepReceive(t: Task, expired: bool, rules: Rules) returns (isEmpty: bool)
      requires Valid() && Unlocked()
      requires t in phase && phase[t].ReceiveBlocking?
      requires t !in waitingToSend && t !in waitingToReceive
      modifies this, buffer
      ensures Valid() && Unlocked() && Played(rules)
      ensures var peek := old(phase)[t].peek;
              phase == old(phase)[t := if expired then ReceiveExpired(peek)
                                       else if isEmpty then ReceiveAsleep(peek) else Receiving(peek)]
      ensures !expired ==> if isEmpty then WasEmpty(old(log)) else WasNotEmpty(old(log))
      ensures !expired && isEmpty ==> t in waitingToReceive || t in wokenReceivers
    {
      hide RingValid, Recorded, Sendable, Replay;
      var peek := phase[t].peek;
      LockQueue();
      Interrupts(rules);
      if !expired {
        label check:
        var found := SleepIfEmpty(t, peek, rules);
        isEmpty := found;
        FoundAt@check(old(log));
      } else {
        isEmpty := false;
        UnlockQueue(rules);
        GoOn(t, ReceiveExpired(peek));
      }
    }

    /** The part of xQueueGenericSend that runs with the scheduler suspended. */
    method SleepSend(t: Task, expired: bool, rules: Rules) returns (isFull: bool)
      requires Valid() && Unlocked()
      requires t in phase && phase[t].SendBlocking?
      requires t !in waitingToSend && t !in waitingToReceive
      modifies this, buffer
      ensures Valid() && Unlocked() && Played(rules)
      ensures var was := old(phase)[t];
              phase == old(phase)[t := if expired then Away else if isFull then SendAsleep(was.item, was.position)
                                       else Sending(was.item, was.position)]
      ensures !expired ==> if isFull then WasFull(old(log)) else WasNotFull(old(log))
      ensures !expired && isFull ==> t in waitingToSend || t in wokenSenders
    {
      hide RingValid, Recorded, Sendable, Replay;
      var item, position := phase[t].item, phase[t].position;
      LockQueue();
      Interrupts(rules);
      if !expired {
        label check:
        var found := SleepIfFull(t, item, position, rules);
        isFull := found;
        FoundAt@check(old(log));
      } else {
        isFull := false;
        UnlockQueue(rules);
        GoOn(t, Away);
      }
    }

    twostate lemma FoundAt(before: seq<Event>)
      requires old(Valid()) && before <= old(log) <= log
      ensures old(messagesWaiting) == 0 ==> WasEmpty(before)
      ensures old(messagesWaiting) > 0 ==> WasNotEmpty(before)
      ensures if old(messagesWaiting) == length then WasFull(before) else WasNotFull(before)
    {
      hide Replay, Legal, ReceiversOverlooked, SendersOverlooked;
      assert log[..|old(log)|] == old(log);
      assert |Replay(old(log))| == old(messagesWaiting);
    }

    /** A task that is not asleep changes phase. */
    method GoOn(t: Task, next: Phase)
      requires Valid() && Unlocked()
      requires t !in phase || !(phase[t].SendAsleep? || phase[t].ReceiveAsleep?)
      requires next.Away? || next.Sending? || next.Receiving? || next.ReceiveExpired?
      requires next.Sending? ==> Sendable(next.item, next.position)
      modifies `phase
      ensures Valid() && Unlocked()
      ensures phase == old(phase)[t := next]
    {
      hide RingValid, Recorded;
      phase := phase[t := next];
    }

    /** The tick interrupt ends a wait: the task leaves the event list without having been woken for
        an item. */
    method TimeOut(t: Task)
      requires Valid() && Unlocked()
      modifies `waitingToSend, `waitingToReceive
      ensures Valid() && Unlocked()
      ensures t !in waitingToSend && t !in waitingToReceive
    {
      hide RingValid, Recorded;
      RemovedMembers(waitingToSend, t);
      RemovedMembers(waitingToReceive, t);
      waitingToSend := Removed(waitingToSend, t);
      waitingToReceive := Removed(waitingToReceive, t);
    }

    /** The sends under way keep to the rules too. */
    ghost predicate SendsByRule(rules: Rules)
      reads `phase
    {
      rules.backOnly ==>
        forall t :: t in phase && (phase[t].Sending? || phase[t].SendBlocking? || phase[t].SendAsleep?)
          ==> phase[t].position == ToBack
    }

    /** What may become of a call in one step. */
    predicate Follows(before: Phase, after: Phase) {
      match before
      case Away => after.Away? || after.Sending? || after.Receiving?
      case Sending(item, position) => after == Away || after == SendBlocking(item, position)
      case SendAsleep(item, position) => after == Away || after == SendBlocking(item, position) || after == before
      case SendBlocking(item, position) => after == Away || after == SendAsleep(item, position) || after == Sending(item, position)
      case Receiving(peek) => after == Away || after == ReceiveBlocking(peek)
      case ReceiveAsleep(peek) => after == Away || after == ReceiveBlocking(peek) || after == before
      case ReceiveBlocking(peek) => after == ReceiveExpired(peek) || after == ReceiveAsleep(peek) || after == Receiving(peek)
      case ReceiveExpired(peek) => after == Away || after == Receiving(peek)
    }

    /** Only `t` has gone on with its call. */
    twostate predicate StepOf(t: Task)
      reads `phase
    {
      && (forall u :: u != t ==> (u in phase <==> u in old(phase)))
      && (forall u :: u != t && u in phase && u in old(phase) ==> phase[u] == old(phase)[u])
      && (t in old(phase) ==> t in phase && Follows(old(phase)[t], phase[t]))
    }

    /** One step of a task: it begins a call, or goes on with it. */
    method Step(t: Task, rules: Rules)
      requires Valid() && Unlocked() && SendsByRule(rules)
      modifies this, buffer
      ensures Valid() && Unlocked() && SendsByRule(rules) && Played(rules)
      ensures StepOf(t)
    {
      hide RingValid, Recorded, Replay, Legal, Valid, Unlocked, SendsByRule, StepOf;
      if t !in phase || phase[t].Away? {
        Begin(t, rules);
      } else if phase[t].Sending? || phase[t].SendAsleep? || phase[t].SendBlocking? {
        StepSend(t, rules);
      } else {
        StepReceive(t, rules);
      }
    }

    method Begin(t: Task, rules: Rules)
      requires Valid() && Unlocked() && SendsByRule(rules) && (t in phase ==> phase[t].Away?)
      modifies `phase
      ensures Valid() && Unlocked() && SendsByRule(rules) && StepOf(t)
    {
      hide RingValid, Recorded, Replay, Legal;
      var item: Item, position: Position, peek: bool := *, *, *;
      if * {
        GoOn(t, Receiving(peek));
      } else if Obeys(item, position, rules) {
        GoOn(t, Sending(item, position));
      }
    }

    method StepSend(t: Task, rules: Rules)
      requires Valid() && Unlocked() && SendsByRule(rules)
      requires t in phase && (phase[t].Sending? || phase[t].SendAsleep? || phase[t].SendBlocking?)
      modifies this, buffer
      ensures Valid() && Unlocked() && SendsByRule(rules) && Played(rules) && StepOf(t)
      ensures !(old(phase)[t].SendAsleep? && t in old(waitingToSend)) ==> phase[t] != old(phase)[t]
    {
      hide RingValid, Recorded, Replay, Legal;
      var noWait: bool, expired: bool := *, *;
      if phase[t].SendBlocking? {
        var _ := SleepSend(t, expired, rules);
      } else if phase[t].Sending? || t !in waitingToSend {
        var _ := AttemptSend(t, noWait);
      }
    }

    method StepReceive(t: Task, rules: Rules)
      requires Valid() && Unlocked() && SendsByRule(rules)
      requires t in phase && !(phase[t].Away? || phase[t].Sending? || phase[t].SendAsleep? || phase[t].SendBlocking?)
      modifies this, buffer
      ensures Valid() && Unlocked() && SendsByRule(rules) && Played(rules) && StepOf(t)
      ensures !(old(phase)[t].ReceiveAsleep? && t in old(waitingToReceive)) ==> phase[t] != old(phase)[t]
    {
      hide ReceiversOverlooked, SendersOverlooked, Contents, RingValid, Recorded, Replay, Legal;
      var noWait: bool, expired: bool := *, *;
      if phase[t].ReceiveBlocking? {
        var _ := SleepReceive(t, expired, rules);
      } else if phase[t].ReceiveExpired? {
        LookAgain(t);
      } else if phase[t].Receiving? || t !in waitingToReceive {
        var _, _ := AttemptReceive(t, noWait);
      }
    }

    /** A receiver whose time is over: it gives up exactly if the queue is empty. */
    method LookAgain(t: Task)
      requires Valid() && Unlocked() && t in phase && phase[t].ReceiveExpired?
      modifies `phase
      ensures Valid() && Unlocked()
      ensures phase == old(phase)[t := if messagesWaiting == 0 then Away else Receiving(old(phase)[t].peek)]
    {
      GoOn(t, if messagesWaiting == 0 then Away else Receiving(phase[t].peek));
    }

    /** Any finite run by the rules: the steps of the tasks, interrupts, the ends of waits and, where
        they are allowed, resets come in any order. */
    method Run(steps: nat, rules: Rules)
      requires Valid() && Unlocked() && SendsByRule(rules)
      modifies this, buffer
      ensures Valid() && Unlocked() && SendsByRule(rules) && Played(rules)
    {
      hide RingValid, Recorded, Replay, Legal;
      for step := 0 to steps
        invariant Valid() && Unlocked() && SendsByRule(rules) && Played(rules)
      {
        var t: Task, reset: bool := *, *;
        if * {
          Interrupts(rules);
        } else if * {
          TimeOut(t);
        } else if rules.resets && reset {
          GenericReset();
        } else {
          Step(t, rules);
        }
      }
    }

    /** The point of the protocol: once the woken tasks have run, nobody waits for an item that is
        there or for room that is there.  Only an overflow or a reset can spoil it. */
    lemma NobodySleepsOverAnItem()
      requires Valid() && Unlocked()
      ensures !ReceiversOverlooked(log) && wokenReceivers == {} && waitingToReceive != [] ==> messagesWaiting == 0
      ensures !SendersOverlooked(log) && wokenSenders == {} && waitingToSend != [] ==> messagesWaiting == length
    {
    }

    /** The ring of an empty queue: the next write goes to the first slot. */
    method ResetRing()
      requires length > 0 && buffer.Length == length * itemSize
      modifies `messagesWaiting, `writeTo, `readFrom, `readSlot
      ensures RingValid() && messagesWaiting == 0 && Contents() == []
    {
      messagesWaiting := 0;
      writeTo := 0;
      readFrom := (length - 1) * itemSize;
      readSlot := length - 1;
      ModUnique(length, length, 1, 0);
    }

    /** xQueueGenericReset of a queue in use.  It empties the queue and wakes one sender, which is
        enough exactly when no second sender waits or the woken ones fill the queue. */
    method GenericReset()
      requires Valid() && Unlocked()
      modifies `messagesWaiting, `writeTo, `readFrom, `rxLock, `txLock, `readSlot, `waitingToSend, `wokenSenders, `log
      ensures Valid() && Unlocked() && Contents() == []
      ensures SendersCovered(UNLOCKED) <==> |old(waitingToSend)| <= 1 || length <= |wokenSenders|
      ensures log == old(log) + [Emptied(!SendersCovered(UNLOCKED))]
      ensures waitingToSend == if old(waitingToSend) == [] then [] else old(waitingToSend)[1..]
      ensures |wokenSenders| == old(|wokenSenders|) + (if old(waitingToSend) == [] then 0 else 1)
    {
      hide TasksOk, Items, Replay, Legal, Within;
      ResetRing();
      rxLock, txLock := UNLOCKED, UNLOCKED;
      if waitingToSend != [] {
        WakeSender();
      }
      ghost var event := Emptied(!SendersCovered(UNLOCKED));
      ReplayNext(log, event, length);
      log := log + [event];
    }

    /** xQueueGenericCreate and the reset of a new queue. */
    constructor (length: nat, itemSize: nat)
      requires length > 0
      ensures Valid() && Unlocked() && fresh(buffer)
      ensures this.length == length && this.itemSize == itemSize && Contents() == [] && log == []
      ensures waitingToSend == [] && waitingToReceive == [] && phase == map[]
    {
      this.length, this.itemSize := length, itemSize;
      buffer := new Byte[length * itemSize](_ => 0);
      messagesWaiting, writeTo := 0, 0;
      readFrom := (length - 1) * itemSize;
      rxLock, txLock := UNLOCKED, UNLOCKED;
      waitingToSend, waitingToReceive, phase := [], [], map[];
      wokenSenders, wokenReceivers := {}, {};
      readSlot, log := length - 1, [];
      new;
      ModUnique(length, length, 1, 0);
    }
  }

  function SetOf(s: seq<Task>): set<Task> {
    set t | t in s
  }

  function Fewer(a: nat, b: nat): nat {
    if a < b then a else b
  }

  /** The first `n` of those who waited have been woken, and nobody else. */
  ghost predicate WokenOf(n: nat, waited: seq<Task>, waiting: seq<Task>, before: set<Task>, woken: set<Task>) {
    n <= |waited| && waiting == waited[n..] && woken == before + SetOf(waited[..n])
  }

  lemma NoneWoken(waited: seq<Task>, before: set<Task>)
    ensures WokenOf(0, waited, waited, before, before)
  {
  }

  lemma OneMoreWoken(n: nat, waited: seq<Task>, waiting: seq<Task>, before: set<Task>, woken: set<Task>,
                     rest: seq<Task>, after: set<Task>)
    requires WokenOf(n, waited, waiting, before, woken) && waiting != []
    requires rest == waiting[1..] && after == woken + {waiting[0]}
    ensures WokenOf(n + 1, waited, rest, before, after)
  {
    assert waited[..n + 1] == waited[..n] + [waited[n]];
  }

  lemma AllWoken(n: nat, waited: seq<Task>, waiting: seq<Task>, before: set<Task>, woken: set<Task>)
    requires WokenOf(n, waited, waiting, before, woken)
    ensures waiting == [] <==> n == |waited|
    ensures forall t :: t in waiting ==> t in waited
  {
  }

  /** From a new queue, over any run of back sends and receives by tasks and interrupts: what was
      received is the first of what was accepted, in that order, and the rest is in the queue. */
  method FirstInFirstOut(length: nat, itemSize: nat, steps: nat, rules: Rules) returns (q: Queue)
    requires length > 0 && rules.backOnly && !rules.resets
    ensures q.Valid() && q.length == length
    ensures ReceivedItems(q.log) + q.Contents() == AcceptedItems(q.log)
    ensures |AcceptedItems(q.log)| - |ReceivedItems(q.log)| == q.messagesWaiting <= length
    ensures rules.counted ==> !ReceiversOverlooked(q.log) && !SendersOverlooked(q.log)
  {
    q := new Queue(length, itemSize);
    q.Run(steps, rules);
    ReceivedInOrder(q.log, rules, length);
    if rules.counted {
      OverlookedNever(q.log, rules);
    }
  }

  lemma PlacedDistinct(s: seq<Task>, at: nat, t: Task)
    requires at <= |s| && Distinct(s) && t !in s
    ensures Distinct(s[..at] + [t] + s[at..])
    ensures forall u :: u in s[..at] + [t] + s[at..] <==> u in s || u == t
  {
    assert s == s[..at] + s[at..];
  }
}
