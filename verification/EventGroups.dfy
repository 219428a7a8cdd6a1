/** Event groups: tasks wait for any or all of a set of bits. */
module EventGroups {

  type Bits = bv32
  type Task = nat

  const CLEAR_EVENTS_ON_EXIT_BIT: Bits := 0x01000000
  const UNBLOCKED_DUE_TO_BIT_SET: Bits := 0x02000000
  const WAIT_FOR_ALL_BITS: Bits := 0x04000000
  const EVENT_BITS_CONTROL_BYTES: Bits := 0xff000000
  const ITEM_VALUE_IN_USE: Bits := 0x80000000

  /** An item of the waiting list: the task and the word that says what it waits for. */
  datatype Waiter = Waiter(task: Task, value: Bits)

  /** The parameters of a call that blocked. */
  datatype Call = Call(waitFor: Bits, clearOnExit: bool, waitForAll: bool)

  // The bit operations, named so that proofs about lists need not look inside them.

  function And(a: Bits, b: Bits): Bits {
    a & b
  }

  function Or(a: Bits, b: Bits): Bits {
    a | b
  }

  function AndNot(a: Bits, b: Bits): Bits {
    a & !b
  }

  lemma AndCommutes(a: Bits, b: Bits)
    ensures And(a, b) == And(b, a)
  {
  }

  lemma OrCovers(a: Bits, b: Bits, c: Bits)
    requires And(a, b) == a || And(a, c) == a
    ensures And(a, Or(b, c)) == a
  {
    AndOr(a, b, c);
    Absorbs(a, b);
    Absorbs(a, c);
    OrCommutes(And(a, b), a);
    hide And, Or;
  }

  lemma AndOr(a: Bits, b: Bits, c: Bits)
    ensures And(a, Or(b, c)) == Or(And(a, b), And(a, c))
  {
  }

  lemma OrCommutes(a: Bits, b: Bits)
    ensures Or(a, b) == Or(b, a)
  {
  }

  lemma Absorbs(a: Bits, b: Bits)
    ensures Or(a, And(a, b)) == a
  {
  }

  lemma OrSplits(a: Bits, b: Bits, c: Bits)
    ensures And(a, Or(b, c)) != 0 ==> And(a, b) != 0 || And(a, c) != 0
  {
  }

  lemma NothingInZero(a: Bits)
    ensures And(a, 0) == 0 && Or(a, 0) == a && AndNot(a, 0) == a
  {
  }

  lemma Narrower(m: Bits, bits: Bits, clear: Bits)
    ensures And(m, bits) == 0 ==> And(m, AndNot(bits, clear)) == 0
    ensures And(m, AndNot(bits, clear)) == m ==> And(m, bits) == m
  {
  }

  /** prvTestWaitCondition. */
  predicate TestWaitCondition(current: Bits, waitFor: Bits, waitForAll: bool) {
    if !waitForAll then And(current, waitFor) != 0 else And(current, waitFor) == waitFor
  }

  predicate HasAll(bits: Bits, mask: Bits) {
    bits & mask == mask
  }

  predicate HasAny(bits: Bits, mask: Bits) {
    bits & mask != 0
  }

  /** What a call waits for: all of its bits, or any of them. */
  predicate Met(bits: Bits, call: Call) {
    if call.waitForAll then HasAll(bits, call.waitFor) else HasAny(bits, call.waitFor)
  }

  lemma MetIsTested(bits: Bits, call: Call)
    ensures TestWaitCondition(bits, call.waitFor, call.waitForAll) <==> Met(bits, call)
  {
    hide And, HasAll, HasAny;
    AllIsTested(bits, call.waitFor);
    AnyIsTested(bits, call.waitFor);
  }

  lemma AllIsTested(bits: Bits, mask: Bits)
    ensures HasAll(bits, mask) <==> And(bits, mask) == mask
  {
  }

  lemma AnyIsTested(bits: Bits, mask: Bits)
    ensures HasAny(bits, mask) <==> And(bits, mask) != 0
  {
  }

  lemma AndPlain(a: Bits, b: Bits)
    ensures And(a, b) == a & b
  {
  }

  lemma OrPlain(a: Bits, b: Bits)
    ensures Or(a, b) == a | b
  {
  }

  lemma AndNotPlain(a: Bits, b: Bits)
    ensures AndNot(a, b) == a & !b
  {
  }

  predicate NoControlBits(bits: Bits) {
    And(bits, EVENT_BITS_CONTROL_BYTES) == 0
  }

  /** The word a blocked call leaves in its list item. */
  function Pack(call: Call): Bits {
    Or(Or(call.waitFor,
          Or(if call.clearOnExit then CLEAR_EVENTS_ON_EXIT_BIT else 0, if call.waitForAll then WAIT_FOR_ALL_BITS else 0)),
       ITEM_VALUE_IN_USE)
  }

  function WaitedFor(value: Bits): Bits {
    AndNot(value, EVENT_BITS_CONTROL_BYTES)
  }

  function Control(value: Bits): Bits {
    And(value, EVENT_BITS_CONTROL_BYTES)
  }

  predicate WantsAll(value: Bits) {
    And(Control(value), WAIT_FOR_ALL_BITS) != 0
  }

  predicate WantsClear(value: Bits) {
    And(Control(value), CLEAR_EVENTS_ON_EXIT_BIT) != 0
  }

  /** The decision the setting task takes from the word alone. */
  predicate Matches(value: Bits, bits: Bits) {
    if !WantsAll(value) then And(WaitedFor(value), bits) != 0
    else And(WaitedFor(value), bits) == WaitedFor(value)
  }

  function ClearedBy(value: Bits): Bits {
    if WantsClear(value) then WaitedFor(value) else 0
  }

  /** Mask and control bits share one word without disturbing each other. */
  lemma PackUnpack(call: Call, bits: Bits)
    requires NoControlBits(call.waitFor)
    ensures WaitedFor(Pack(call)) == call.waitFor
    ensures Matches(Pack(call), bits) <==> TestWaitCondition(bits, call.waitFor, call.waitForAll)
    ensures ClearedBy(Pack(call)) == if call.clearOnExit then call.waitFor else 0
    ensures And(Pack(call), UNBLOCKED_DUE_TO_BIT_SET) == 0
  {
    PackParts(call.waitFor, call.clearOnExit, call.waitForAll);
    AndCommutes(call.waitFor, bits);
    hide And, Or, AndNot;
  }

  lemma PackParts(m: Bits, c: bool, a: bool)
    requires NoControlBits(m)
    ensures var w := Pack(Call(m, c, a));
            && WaitedFor(w) == m
            && WantsAll(w) == a
            && WantsClear(w) == c
            && And(w, UNBLOCKED_DUE_TO_BIT_SET) == 0
  {
  }

  /** The word delivered to a released task: the bits, and the mark that it was released. */
  function Delivered(bits: Bits): Bits {
    Or(Or(bits, UNBLOCKED_DUE_TO_BIT_SET), ITEM_VALUE_IN_USE)
  }

  lemma DeliveredParts(bits: Bits)
    requires NoControlBits(bits)
    ensures WaitedFor(Delivered(bits)) == bits
    ensures And(Delivered(bits), UNBLOCKED_DUE_TO_BIT_SET) != 0
  {
  }

  lemma NoControlKept(bits: Bits, more: Bits, clear: Bits)
    requires NoControlBits(bits) && NoControlBits(more)
    ensures NoControlBits(Or(bits, more)) && NoControlBits(AndNot(bits, clear))
    ensures WaitedFor(bits) == bits
  {
  }

  /** The waiters a set of bits releases, and those it leaves, in list order. */
  function Released(waiting: seq<Waiter>, bits: Bits): seq<Waiter> {
    if waiting == [] then []
    else
      var last := waiting[|waiting| - 1];
      Released(waiting[..|waiting| - 1], bits) + if Matches(last.value, bits) then [last] else []
  }

  function Left(waiting: seq<Waiter>, bits: Bits): seq<Waiter> {
    if waiting == [] then []
    else
      var last := waiting[|waiting| - 1];
      Left(waiting[..|waiting| - 1], bits) + if Matches(last.value, bits) then [] else [last]
  }

  /** The bits cleared on behalf of the released. */
  function ClearMask(waiting: seq<Waiter>, bits: Bits): Bits {
    if waiting == [] then 0
    else
      var last := waiting[|waiting| - 1];
      Or(ClearMask(waiting[..|waiting| - 1], bits), if Matches(last.value, bits) then ClearedBy(last.value) else 0)
  }

  lemma OneMore(waiting: seq<Waiter>, w: Waiter, bits: Bits)
    ensures Left(waiting + [w], bits) == Left(waiting, bits) + (if Matches(w.value, bits) then [] else [w])
    ensures Released(waiting + [w], bits) == Released(waiting, bits) + (if Matches(w.value, bits) then [w] else [])
    ensures ClearMask(waiting + [w], bits)
         == Or(ClearMask(waiting, bits), if Matches(w.value, bits) then ClearedBy(w.value) else 0)
  {
    hide Or, Matches, ClearedBy;
    assert (waiting + [w])[..|waiting|] == waiting;
  }

  lemma {:induction false} ReleasedOrLeft(waiting: seq<Waiter>, bits: Bits)
    ensures forall w :: w in Released(waiting, bits) <==> w in waiting && Matches(w.value, bits)
    ensures forall w :: w in Left(waiting, bits) <==> w in waiting && !Matches(w.value, bits)
  {
    hide Matches;
    if waiting != [] {
      ReleasedOrLeft(waiting[..|waiting| - 1], bits);
      assert waiting == waiting[..|waiting| - 1] + [waiting[|waiting| - 1]];
    }
  }

  /** Every released task that asked for it has its bits cleared. */
  lemma {:induction false} ClearMaskCovers(waiting: seq<Waiter>, bits: Bits, w: Waiter)
    requires w in waiting && Matches(w.value, bits)
    ensures And(ClearedBy(w.value), ClearMask(waiting, bits)) == ClearedBy(w.value)
  {
    hide And, Or, AndNot, Matches, ClearedBy;
    var last := waiting[|waiting| - 1];
    var front := waiting[..|waiting| - 1];
    assert waiting == front + [last];
    var more := if Matches(last.value, bits) then ClearedBy(last.value) else 0;
    if w != last {
      ClearMaskCovers(front, bits, w);
    } else {
      AndSelf(ClearedBy(w.value));
    }
    OrCovers(ClearedBy(w.value), ClearMask(front, bits), more);
  }

  lemma AndSelf(a: Bits)
    ensures And(a, a) == a
  {
  }

  /** Nothing is cleared that no released task asked for. */
  lemma {:induction false} ClearMaskOnly(waiting: seq<Waiter>, bits: Bits, bit: Bits)
    requires And(bit, ClearMask(waiting, bits)) != 0
    ensures exists w :: w in waiting && Matches(w.value, bits) && And(bit, ClearedBy(w.value)) != 0
  {
    hide And, Or, AndNot, Matches, ClearedBy;
    NothingInZero(bit);
    var last := waiting[|waiting| - 1];
    var front := waiting[..|waiting| - 1];
    assert waiting == front + [last];
    var more := if Matches(last.value, bits) then ClearedBy(last.value) else 0;
    OrSplits(bit, ClearMask(front, bits), more);
    if And(bit, ClearMask(front, bits)) != 0 {
      ClearMaskOnly(front, bits, bit);
    } else {
      assert last in waiting;
    }
  }

  /** Those whose condition the bits meet have left the list with these bits, and the bits that they asked for are
      cleared; the others are as before. */
  ghost predicate AskedFor(waiting: seq<Waiter>, calls: map<Task, Call>, values: map<Task, Bits>, bits: Bits,
                           left: seq<Waiter>, after: map<Task, Bits>, remain: Bits) {
    && (forall w :: w in left ==> w in waiting)
    && (forall w :: w in waiting ==>
          && w.task in calls && w.task in values && w.task in after
          && (w in left <==> !Met(bits, calls[w.task]))
          && after[w.task] == if w in left then values[w.task] else Delivered(bits))
    && (forall w :: w in waiting && w !in left && calls[w.task].clearOnExit ==> And(remain, calls[w.task].waitFor) == 0)
    && (remain != bits ==> exists w :: w in waiting && w !in left && calls[w.task].clearOnExit)
  }

  lemma SplitAsAsked(waiting: seq<Waiter>, calls: map<Task, Call>, values: map<Task, Bits>, bits: Bits,
                     after: map<Task, Bits>)
    requires Distinct(waiting)
    requires forall w :: w in waiting ==>
      w.task in calls && w.value == Pack(calls[w.task]) && NoControlBits(calls[w.task].waitFor) && w.task in values
    requires forall w :: w in Released(waiting, bits) ==> w.task in after && after[w.task] == Delivered(bits)
    requires forall t :: t in values && t !in Tasks(Released(waiting, bits)) ==> t in after && after[t] == values[t]
    ensures AskedFor(waiting, calls, values, bits, Left(waiting, bits), after, AndNot(bits, ClearMask(waiting, bits)))
  {
    hide And, Or, AndNot, Matches, Pack, TestWaitCondition, Met, ClearMask, Left, Released, NoControlBits, Delivered;
    AsAsked(waiting, bits, calls);
    LeftOrReleased(waiting, bits);
    LeftStayUnsatisfied(waiting, bits, 0);
  }

  /** The split of the list and the bits that are cleared, in terms of the calls. */
  lemma AsAsked(waiting: seq<Waiter>, bits: Bits, calls: map<Task, Call>)
    requires forall w :: w in waiting ==>
      w.task in calls && w.value == Pack(calls[w.task]) && NoControlBits(calls[w.task].waitFor)
    ensures forall w :: w in waiting ==> (w in Left(waiting, bits) <==> !Met(bits, calls[w.task]))
    ensures forall w :: w in Left(waiting, bits) ==> w in waiting
    ensures var after := AndNot(bits, ClearMask(waiting, bits));
            && (forall w :: w in waiting && Met(bits, calls[w.task]) && calls[w.task].clearOnExit ==>
                  And(after, calls[w.task].waitFor) == 0)
            && (after != bits ==> exists w :: w in waiting && Met(bits, calls[w.task]) && calls[w.task].clearOnExit)
  {
    hide And, Or, AndNot, Matches, ClearedBy, Pack, TestWaitCondition, Met, ClearMask, Left, Released, NoControlBits;
    ReleasedOrLeft(waiting, bits);
    var clear := ClearMask(waiting, bits);
    forall w | w in waiting
      ensures Matches(w.value, bits) <==> Met(bits, calls[w.task])
    {
      PackUnpack(calls[w.task], bits);
      MetIsTested(bits, calls[w.task]);
    }
    forall w | w in waiting && Met(bits, calls[w.task]) && calls[w.task].clearOnExit
      ensures And(AndNot(bits, clear), calls[w.task].waitFor) == 0
    {
      PackUnpack(calls[w.task], bits);
      ClearMaskCovers(waiting, bits, w);
      CoveredIsCleared(calls[w.task].waitFor, bits, clear);
    }
    if AndNot(bits, clear) != bits {
      ClearedByMask(bits, clear);
      ClearedAsAsked(waiting, bits, calls, 0xffff_ffff);
    }
  }

  /** Whatever bits of `mask` are cleared, somebody who is released asked for one of them. */
  lemma ClearedAsAsked(waiting: seq<Waiter>, bits: Bits, calls: map<Task, Call>, mask: Bits)
    requires forall w :: w in waiting ==>
      w.task in calls && w.value == Pack(calls[w.task]) && NoControlBits(calls[w.task].waitFor)
    requires And(AndNot(bits, ClearMask(waiting, bits)), mask) != And(bits, mask)
    ensures exists w :: w in waiting && Met(bits, calls[w.task]) && calls[w.task].clearOnExit
                        && And(calls[w.task].waitFor, mask) != 0
  {
    hide And, Or, AndNot, Matches, ClearedBy, Pack, TestWaitCondition, Met, ClearMask, NoControlBits;
    ChangedIsCleared(mask, bits, ClearMask(waiting, bits));
    ClearMaskOnly(waiting, bits, mask);
    var w :| w in waiting && Matches(w.value, bits) && And(mask, ClearedBy(w.value)) != 0;
    PackUnpack(calls[w.task], bits);
    MetIsTested(bits, calls[w.task]);
    AndCommutes(mask, calls[w.task].waitFor);
    NothingInZero(mask);
  }

  lemma ClearedByMask(bits: Bits, clear: Bits)
    requires AndNot(bits, clear) != bits
    ensures And(AndNot(bits, clear), 0xffff_ffff) != And(bits, 0xffff_ffff)
  {
  }

  lemma ChangedIsCleared(mask: Bits, bits: Bits, clear: Bits)
    requires And(AndNot(bits, clear), mask) != And(bits, mask)
    ensures And(mask, clear) != 0
  {
  }

  lemma CoveredIsCleared(a: Bits, bits: Bits, clear: Bits)
    requires And(a, clear) == a
    ensures And(AndNot(bits, clear), a) == 0
  {
  }

  lemma DeliveredPlain(bits: Bits)
    ensures Delivered(bits) == bits | 0x8200_0000
  {
  }

  lemma WaitedForPlain(value: Bits)
    ensures WaitedFor(value) == value & 0x00ff_ffff
  {
  }

  lemma PackPlain(call: Call)
    ensures Pack(call) == call.waitFor | 0x8000_0000 | (if call.clearOnExit then 0x0100_0000 else 0)
                          | (if call.waitForAll then 0x0400_0000 else 0)
  {
  }

  /** Who is not left was released. */
  lemma LeftOrReleased(waiting: seq<Waiter>, bits: Bits)
    ensures forall w :: w in waiting && w !in Left(waiting, bits) ==> w in Released(waiting, bits)
  {
    hide Matches;
    ReleasedOrLeft(waiting, bits);
  }

  /** Clearing bits satisfies nobody. */
  lemma ClearingSatisfiesNobody(value: Bits, bits: Bits, clear: Bits)
    requires !Matches(value, bits)
    ensures !Matches(value, AndNot(bits, clear))
  {
    hide And, AndNot, WaitedFor, WantsAll;
    Narrower(WaitedFor(value), bits, clear);
  }

  function Tasks(waiting: seq<Waiter>): set<Task> {
    set w | w in waiting :: w.task
  }

  ghost predicate Distinct(waiting: seq<Waiter>) {
    forall i, j :: 0 <= i < j < |waiting| ==> waiting[i].task != waiting[j].task
  }

  lemma {:induction false} LeftDistinct(waiting: seq<Waiter>, bits: Bits)
    requires Distinct(waiting)
    ensures Distinct(Left(waiting, bits))
  {
    hide Matches;
    if waiting != [] {
      var front := waiting[..|waiting| - 1];
      LeftDistinct(front, bits);
      ReleasedOrLeft(front, bits);
      forall w | w in Left(front, bits) ensures w.task != waiting[|waiting| - 1].task {
        var k :| 0 <= k < |front| && front[k] == w;
      }
    }
  }

  /** What a released task was given satisfies its call. */
  predicate Satisfied(value: Bits, call: Call) {
    && And(value, UNBLOCKED_DUE_TO_BIT_SET) != 0
    && TestWaitCondition(WaitedFor(value), call.waitFor, call.waitForAll)
  }

  /** The walk after `done` waiters: the list holds those that were left, then those still to come;
      the released have their word, everybody else has what they had. */
  ghost predicate Walked(before: seq<Waiter>, done: nat, bits: Bits, waiting: seq<Waiter>, item: nat,
                         clear: Bits, values: map<Task, Bits>, values0: map<Task, Bits>)
  {
    && done <= |before|
    && item == |Left(before[..done], bits)|
    && waiting == Left(before[..done], bits) + before[done..]
    && clear == ClearMask(before[..done], bits)
    && (forall w :: w in Released(before[..done], bits) ==> w.task in values && values[w.task] == Delivered(bits))
    && (forall t :: t in values0 ==> t in values)
    && (forall t :: t in values0 && t !in Tasks(Released(before[..done], bits)) ==> values[t] == values0[t])
  }

  lemma WalkStep(before: seq<Waiter>, done: nat, bits: Bits, waiting: seq<Waiter>, item: nat,
                 clear: Bits, values: map<Task, Bits>, values0: map<Task, Bits>)
    requires Walked(before, done, bits, waiting, item, clear, values, values0) && item < |waiting|
    ensures done < |before|
    ensures var w := waiting[item];
            if Matches(w.value, bits) then
              Walked(before, done + 1, bits, waiting[..item] + waiting[item + 1..], item, Or(clear, ClearedBy(w.value)),
                     values[w.task := Delivered(bits)], values0)
            else Walked(before, done + 1, bits, waiting, item + 1, clear, values, values0)
  {
    hide And, Or, AndNot, Matches, ClearedBy, Delivered, Left, Released, ClearMask, Tasks;
    var w, seen := before[done], before[..done];
    WalkLists(before, done, bits, waiting, item);
    OneMore(seen, w, bits);
    NothingInZero(clear);
    if Matches(w.value, bits) {
      TasksAppend(Released(seen, bits), w);
    } else {
      assert Released(before[..done + 1], bits) == Released(seen, bits);
    }
  }

  lemma WalkLists(before: seq<Waiter>, done: nat, bits: Bits, waiting: seq<Waiter>, item: nat)
    requires done <= |before| && item == |Left(before[..done], bits)| < |waiting|
    requires waiting == Left(before[..done], bits) + before[done..]
    ensures done < |before| && waiting[item] == before[done] && before[..done + 1] == before[..done] + [before[done]]
    ensures waiting[..item] + waiting[item + 1..] == Left(before[..done], bits) + before[done + 1..]
    ensures waiting == (Left(before[..done], bits) + [before[done]]) + before[done + 1..]
  {
    hide Left;
    assert before[done..] == [before[done]] + before[done + 1..];
  }

  lemma TasksAppend(waiting: seq<Waiter>, w: Waiter)
    ensures Tasks(waiting + [w]) == Tasks(waiting) + {w.task}
    ensures w in waiting + [w] && forall x :: x in waiting + [w] ==> x in waiting || x == w
  {
    assert forall x :: x in waiting ==> x in waiting + [w];
    assert (waiting + [w])[|waiting|] == w;
  }

  lemma ReleasedSatisfied(call: Call, bits: Bits)
    requires NoControlBits(call.waitFor) && NoControlBits(bits) && Matches(Pack(call), bits)
    ensures Satisfied(Delivered(bits), call)
  {
    PackUnpack(call, bits);
    DeliveredParts(bits);
    hide And, Or, AndNot;
  }

  /** The waiters that are left stay unsatisfied when bits are cleared, and were given nothing. */
  lemma LeftStayUnsatisfied(waiting: seq<Waiter>, bits: Bits, clear: Bits)
    requires Distinct(waiting)
    ensures Distinct(Left(waiting, bits))
    ensures forall w :: w in Left(waiting, bits) ==>
      w in waiting && !Matches(w.value, AndNot(bits, clear)) && w.task !in Tasks(Released(waiting, bits))
  {
    hide And, AndNot, Matches, Left, Released;
    LeftDistinct(waiting, bits);
    ReleasedOrLeft(waiting, bits);
    forall w | w in Left(waiting, bits)
      ensures !Matches(w.value, AndNot(bits, clear)) && w.task !in Tasks(Released(waiting, bits))
    {
      ClearingSatisfiesNobody(w.value, bits, clear);
    }
  }

  /** The word of a blocked call says what it waits for, or answers it. */
  lemma AnswersKept(waiting: seq<Waiter>, bits: Bits, calls: map<Task, Call>, before: map<Task, Bits>,
                    after: map<Task, Bits>)
    requires NoControlBits(bits)
    requires forall t :: t in calls ==>
      && NoControlBits(calls[t].waitFor) && t in before && t in after
      && (before[t] == Pack(calls[t]) || Satisfied(before[t], calls[t]))
    requires forall w :: w in waiting ==> w.task in calls && w.value == Pack(calls[w.task])
    requires forall w :: w in Released(waiting, bits) ==> w.task in after && after[w.task] == Delivered(bits)
    requires forall t :: t in before && t !in Tasks(Released(waiting, bits)) ==> t in after && after[t] == before[t]
    ensures forall t :: t in calls ==> after[t] == Pack(calls[t]) || Satisfied(after[t], calls[t])
  {
    hide And, Or, AndNot, Matches, Delivered, Pack, Satisfied, Released, Left, NoControlBits;
    ReleasedOrLeft(waiting, bits);
    forall t | t in calls
      ensures after[t] == Pack(calls[t]) || Satisfied(after[t], calls[t])
    {
      if t in Tasks(Released(waiting, bits)) {
        var w :| w in Released(waiting, bits) && w.task == t;
        ReleasedSatisfied(calls[t], bits);
      }
    }
  }

  function WithoutTask(waiting: seq<Waiter>, t: Task): (r: seq<Waiter>)
    ensures forall w :: w in r <==> w in waiting && w.task != t
  {
    if waiting == [] then []
    else
      var rest := WithoutTask(waiting[1..], t);
      assert waiting == [waiting[0]] + waiting[1..];
      if waiting[0].task == t then rest else [waiting[0]] + rest
  }

  lemma {:induction false} WithoutTaskDistinct(waiting: seq<Waiter>, t: Task)
    requires Distinct(waiting)
    ensures Distinct(WithoutTask(waiting, t))
  {
    if waiting != [] {
      var r, rest := WithoutTask(waiting, t), WithoutTask(waiting[1..], t);
      WithoutTaskDistinct(waiting[1..], t);
      forall w | w in waiting[1..] ensures w.task != waiting[0].task {
        var k :| 0 <= k < |waiting[1..]| && waiting[1..][k] == w;
        assert waiting[k + 1] == w;
      }
      if waiting[0].task != t {
        forall i, j | 0 <= i < j < |r| ensures r[i].task != r[j].task {
          assert r[j] == rest[j - 1] && rest[j - 1] in rest;
          assert i > 0 ==> r[i] == rest[i - 1];
        }
      }
    }
  }

  /** Everyone who waits for all of `mask` is released once the bits cover it. */
  lemma AllReleased(waiting: seq<Waiter>, bits: Bits, mask: Bits)
    requires Distinct(waiting) && NoControlBits(bits) && NoControlBits(mask) && And(bits, mask) == mask
    ensures forall w :: w in waiting && w.value == Pack(Call(mask, true, true)) ==>
      w in Released(waiting, bits) && w.task !in Tasks(Left(waiting, bits))
    ensures And(WaitedFor(Delivered(bits)), mask) == mask
    ensures And(Delivered(bits), UNBLOCKED_DUE_TO_BIT_SET) != 0
  {
    hide And, Pack, WaitedFor, Delivered, Matches, Released, Left;
    DeliveredParts(bits);
    PackUnpack(Call(mask, true, true), bits);
    ReleasedOrLeft(waiting, bits);
    LeftStayUnsatisfied(waiting, bits, 0);
  }

  lemma ClearedAway(bits: Bits, mask: Bits)
    ensures And(AndNot(bits, mask), mask) == 0
  {
  }

  lemma StillIncomplete(bits: Bits, clear: Bits, mask: Bits)
    requires And(bits, mask) != mask
    ensures And(AndNot(bits, clear), mask) != mask
  {
    Narrower(mask, bits, clear);
    AndCommutes(mask, bits);
    AndCommutes(mask, AndNot(bits, clear));
    hide And, AndNot;
  }

  class EventGroup {
    var bits: Bits
    var waiting: seq<Waiter>
    // The event list item values and the blocked calls of the tasks, as far as this group is concerned.
    var itemValue: map<Task, Bits>
    var calls: map<Task, Call>

    /** No waiter's condition holds of the bits, and the control byte of the bits is zero. */
    ghost predicate NobodyMissed()
      reads `bits, `waiting
    {
      NoControlBits(bits) && forall w :: w in waiting ==> !Matches(w.value, bits)
    }

    ghost predicate WaitersOk()
      reads `waiting, `itemValue, `calls
    {
      && Distinct(waiting)
      && (forall w :: w in waiting ==>
            w.task in calls && w.task in itemValue && itemValue[w.task] == w.value == Pack(calls[w.task]))
      && (forall t :: t in calls ==>
            && NoControlBits(calls[t].waitFor) && calls[t].waitFor != 0
            && t in itemValue
            && (itemValue[t] == Pack(calls[t]) || Satisfied(itemValue[t], calls[t])))
    }

    ghost predicate Valid()
      reads this
    {
      NobodyMissed() && WaitersOk()
    }

    constructor ()
      ensures Valid() && bits == 0 && waiting == [] && calls == map[]
    {
      bits, waiting, itemValue, calls := 0, [], map[], map[];
    }

    /** Those whose condition now holds are released with the bits as they were, and the bits that they
        asked to have cleared are cleared. */
    twostate predicate BitsSet(bitsToSet: Bits)
      reads this
    {
      var now := Or(old(bits), bitsToSet);
      && waiting == Left(old(waiting), now)
      && bits == AndNot(now, ClearMask(old(waiting), now))
      && calls == old(calls)
      && (forall w :: w in Released(old(waiting), now) ==> w.task in itemValue && itemValue[w.task] == Delivered(now))
      && (forall t :: t in old(itemValue) && t !in Tasks(Released(old(waiting), now)) ==>
            t in itemValue && itemValue[t] == old(itemValue)[t])
    }

    /** In terms of the calls: exactly those whose condition the old and the new bits together meet leave the list,
        each with these bits; bits are cleared for those of them that asked for it. */
    twostate predicate ReleasedAsAsked(bitsToSet: Bits)
      reads this
    {
      AskedFor(old(waiting), old(calls), old(itemValue), Or(old(bits), bitsToSet), waiting, itemValue, bits)
    }

    /** xEventGroupSetBits.  Its result is read after the scheduler has been resumed: others may have
        run by then. */
    method SetBits(bitsToSet: Bits, others: nat) returns (r: Bits)
      requires Valid() && NoControlBits(bitsToSet)
      modifies this
      ensures Valid() && r == bits && NoControlBits(r)
      ensures others == 0 ==> BitsSet(bitsToSet)
    {
      SetAndRelease(bitsToSet);
      Run(others);
      r := bits;
    }

    /** The part with the scheduler suspended. */
    method SetAndRelease(bitsToSet: Bits)
      requires Valid() && NoControlBits(bitsToSet)
      modifies `bits, `waiting, `itemValue
      ensures Valid() && BitsSet(bitsToSet) && ReleasedAsAsked(bitsToSet)
    {
      hide NoControlBits, AskedFor, Met, And, Or, AndNot, Matches, Delivered, Pack, Satisfied, Left, Released, ClearMask;
      ghost var before, now := waiting, Or(bits, bitsToSet);
      NoControlKept(bits, bitsToSet, 0);
      SetWalkClear(bitsToSet);
      NoControlKept(now, now, ClearMask(before, now));
      LeftStayUnsatisfied(before, now, ClearMask(before, now));
      AnswersKept(before, now, calls, old(itemValue), itemValue);
      SplitAsAsked(before, calls, old(itemValue), now, itemValue);
    }

    /** Set the bits, walk the waiting list, removing items on the way, and clear what the released asked for. */
    method SetWalkClear(bitsToSet: Bits)
      modifies `bits, `waiting, `itemValue
      ensures BitsSet(bitsToSet)
    {
      hide And, Or, AndNot, Delivered, Left, Released, ClearMask;
      bits := Or(bits, bitsToSet);
      var bitsToClear := ReleaseMatching();
      bits := AndNot(bits, bitsToClear);
    }

    /** The walk along the waiting list: each waiter is judged against the same bits. */
    method ReleaseMatching() returns (bitsToClear: Bits)
      modifies `waiting, `itemValue
      ensures waiting == Left(old(waiting), bits)
      ensures bitsToClear == ClearMask(old(waiting), bits)
      ensures forall w :: w in Released(old(waiting), bits) ==> w.task in itemValue && itemValue[w.task] == Delivered(bits)
      ensures forall t :: t in old(itemValue) ==> t in itemValue
      ensures forall t :: t in old(itemValue) && t !in Tasks(Released(old(waiting), bits)) ==> itemValue[t] == old(itemValue)[t]
    {
      ghost var before := waiting;
      ghost var done := 0;
      bitsToClear := 0;
      var item := 0;
      assert before[..0] == [] && before[0..] == before;
      while item < |waiting|
        invariant Walked(before, done, bits, waiting, item, bitsToClear, itemValue, old(itemValue))
        decreases |waiting| - item
      {
        hide Walked, Or, Matches, ClearedBy, Delivered;
        var w := waiting[item];
        WalkStep(before, done, bits, waiting, item, bitsToClear, itemValue, old(itemValue));
        done := done + 1;
        if Matches(w.value, bits) {
          bitsToClear := Or(bitsToClear, ClearedBy(w.value));
          itemValue := itemValue[w.task := Delivered(bits)];
          waiting := waiting[..item] + waiting[item + 1..];
        } else {
          item := item + 1;
        }
      }
      assert before[..done] == before;
    }

    /** Clear bits of the group. */
    method Clear(bitsToClear: Bits)
      requires Valid()
      modifies `bits
      ensures Valid() && bits == AndNot(old(bits), bitsToClear)
    {
      hide And, AndNot, Matches;
      NoControlKept(bits, bits, bitsToClear);
      forall w | w in waiting ensures !Matches(w.value, AndNot(bits, bitsToClear)) {
        ClearingSatisfiesNobody(w.value, bits, bitsToClear);
      }
      bits := AndNot(bits, bitsToClear);
    }

    method ClearBits(bitsToClear: Bits) returns (r: Bits)
      requires Valid() && NoControlBits(bitsToClear)
      modifies `bits
      ensures Valid() && r == old(bits) && bits == AndNot(old(bits), bitsToClear)
    {
      r := bits;
      Clear(bitsToClear);
    }

    /** vTaskPlaceOnUnorderedEventList: the caller goes to the end of the list. */
    method Block(t: Task, call: Call)
      requires Valid() && t !in calls
      requires NoControlBits(call.waitFor) && call.waitFor != 0
      requires !TestWaitCondition(bits, call.waitFor, call.waitForAll)
      modifies `waiting, `itemValue, `calls
      ensures Valid()
      ensures waiting == old(waiting) + [Waiter(t, Pack(call))]
      ensures calls == old(calls)[t := call] && itemValue == old(itemValue)[t := Pack(call)]
    {
      hide Met, And, Or, AndNot, Matches, Pack, TestWaitCondition, Satisfied;
      PackUnpack(call, bits);
      waiting := waiting + [Waiter(t, Pack(call))];
      itemValue := itemValue[t := Pack(call)];
      calls := calls[t := call];
    }

    /** xEventGroupWaitBits up to the point where the caller blocks or returns. */
    method WaitBits(t: Task, call: Call, mayBlock: bool) returns (blocked: bool, r: Bits)
      requires Valid() && t !in calls
      requires NoControlBits(call.waitFor) && call.waitFor != 0
      modifies this
      ensures Valid()
      ensures var met := Met(old(bits), call);
              && (blocked <==> !met && mayBlock)
              && bits == (if met && call.clearOnExit then AndNot(old(bits), call.waitFor) else old(bits))
              && (!blocked ==> r == old(bits) && waiting == old(waiting) && calls == old(calls))
              && (blocked ==> r == 0 && waiting == old(waiting) + [Waiter(t, Pack(call))] && calls == old(calls)[t := call])
    {
      hide And, AndNot, TestWaitCondition, Met, Matches, Pack;
      MetIsTested(bits, call);
      r := 0;
      blocked := false;
      if TestWaitCondition(bits, call.waitFor, call.waitForAll) {
        r := bits;
        if call.clearOnExit {
          Clear(call.waitFor);
        }
      } else if !mayBlock {
        r := bits;
      } else {
        Block(t, call);
        blocked := true;
      }
    }

    /** The end of a wait or a rendezvous that blocked: the caller was released, or it timed out and
        looks once more at the bits. */
    method Finish(t: Task) returns (r: Bits)
      requires Valid() && t in calls && t !in Tasks(waiting)
      modifies `bits, `calls, `itemValue
      ensures Valid() && waiting == old(waiting) && calls == old(calls) - {t}
      ensures NoControlBits(r)
      ensures var call, value := old(calls)[t], old(itemValue)[t];
              if And(value, UNBLOCKED_DUE_TO_BIT_SET) != 0 then
                && r == WaitedFor(value) && bits == old(bits)
                && Met(r, call)
              else
                && r == old(bits)
                && bits == if Met(r, call) && call.clearOnExit then AndNot(old(bits), call.waitFor) else old(bits)
      ensures itemValue == old(itemValue) - {t}
    {
      hide AndNot, Or, TestWaitCondition, Met, Matches, Pack;
      var call := calls[t];
      MetIsTested(bits, call);
      MetIsTested(WaitedFor(itemValue[t]), call);
      r := itemValue[t];
      PackUnpack(call, bits);
      if And(r, UNBLOCKED_DUE_TO_BIT_SET) == 0 {
        hide And;
        r := bits;
        if TestWaitCondition(r, call.waitFor, call.waitForAll) {
          if call.clearOnExit {
            Clear(call.waitFor);
          }
        }
        NoControlKept(r, r, 0);
      }
      StrippedOfControl(r);
      r := WaitedFor(r);
      Forget(t);
    }

    lemma StrippedOfControl(value: Bits)
      ensures NoControlBits(WaitedFor(value))
    {
    }

    /** The call of `t` is over. */
    method Forget(t: Task)
      requires Valid() && t in calls && t !in Tasks(waiting)
      modifies `calls, `itemValue
      ensures Valid() && calls == old(calls) - {t} && itemValue == old(itemValue) - {t}
    {
      hide And, AndNot, Matches, Pack, Satisfied;
      assert forall w :: w in waiting ==> w.task != t;
      calls := calls - {t};
      itemValue := itemValue - {t};
    }

    /** xEventGroupSync up to the point where the caller blocks or returns.  The call that completes
        the rendezvous releases everyone who waits for the same bits, gives each a value that covers
        them, and leaves them clear. */
    method Sync(t: Task, bitsToSet: Bits, waitFor: Bits, mayBlock: bool) returns (blocked: bool, r: Bits)
      requires Valid() && t !in calls
      requires NoControlBits(bitsToSet) && NoControlBits(waitFor) && waitFor != 0
      modifies this
      ensures Valid()
      ensures var now := Or(old(bits), bitsToSet);
              var met := And(now, waitFor) == waitFor;
              && (blocked <==> !met && mayBlock)
              && (met ==> r == now && And(bits, waitFor) == 0)
              && (met ==> forall w :: w in old(waiting) && w.task in old(calls) && old(calls)[w.task] == Call(waitFor, true, true) ==>
                    && w.task !in Tasks(waiting)
                    && w.task in itemValue && itemValue[w.task] == Delivered(now)
                    && And(itemValue[w.task], UNBLOCKED_DUE_TO_BIT_SET) != 0
                    && And(WaitedFor(itemValue[w.task]), waitFor) == waitFor)
              && (blocked ==> r == 0 && waiting == Left(old(waiting), now) + [Waiter(t, Pack(Call(waitFor, true, true)))]
                              && calls == old(calls)[t := Call(waitFor, true, true)])
              && (!blocked ==> waiting == Left(old(waiting), now) && calls == old(calls))
              && (met ==> bits == AndNot(AndNot(now, ClearMask(old(waiting), now)), waitFor))
              && (!met ==> bits == AndNot(now, ClearMask(old(waiting), now)))
              && (!met && !blocked ==> r == bits)
    {
      hide Met, And, Or, AndNot, Matches, Left, Released, ClearMask, Pack, WaitedFor, Delivered, ClearedBy;
      var original := bits;
      ghost var before := waiting;
      ghost var now := Or(bits, bitsToSet);
      NoControlKept(bits, bitsToSet, 0);
      SetAndRelease(bitsToSet);
      if And(Or(original, bitsToSet), waitFor) == waitFor {
        r := Or(original, bitsToSet);
        AllReleased(before, now, waitFor);
        ClearedAway(bits, waitFor);
        Clear(waitFor);
        blocked := false;
      } else {
        StillIncomplete(now, ClearMask(before, now), waitFor);
        if mayBlock {
          Block(t, Call(waitFor, true, true));
          r := 0;
          blocked := true;
        } else {
          r := bits;
          blocked := false;
        }
      }
    }

    /** The tick interrupt ends a wait: the task leaves the list with its word unchanged. */
    method TimeOut(t: Task)
      requires Valid()
      modifies `waiting
      ensures Valid() && t !in Tasks(waiting) && waiting == WithoutTask(old(waiting), t)
    {
      hide And, Matches, Pack, Satisfied;
      WithoutTaskDistinct(waiting, t);
      waiting := WithoutTask(waiting, t);
    }

    /** Any finite run: tasks set, clear, wait, rendezvous, are released or time out, in any order. */
    method Run(steps: nat)
      requires Valid()
      modifies this
      ensures Valid()
      ensures steps == 0 ==> unchanged(this)
    {
      hide NobodyMissed, WaitersOk, And;
      for step := 0 to steps
        invariant Valid()
        invariant step == 0 ==> unchanged(this)
      {
        var t: Task, first: Bits, second: Bits := *, *, *;
        var clearOnExit: bool, waitForAll: bool, mayBlock: bool := *, *, *;
        if t in calls {
          if t !in Tasks(waiting) {
            var _ := Finish(t);
          } else {
            TimeOut(t);
          }
        } else if NoControlBits(first) && NoControlBits(second) {
          if * {
            SetAndRelease(first);
          } else if * {
            var _ := ClearBits(first);
          } else if second != 0 {
            if * {
              var _, _ := WaitBits(t, Call(second, clearOnExit, waitForAll), mayBlock);
            } else {
              var _, _ := Sync(t, first, second, mayBlock);
            }
          }
        }
      }
    }
  }
}
