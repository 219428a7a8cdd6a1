/** The kernel list: a circular doubly linked list with a sentinel. */
module Lists {
  import opened Sequences
  import opened Ticks
  import opened ListModel

  class ListItem {
    var value: Tick
    const owner: nat
    var next: ListItem?
    var previous: ListItem?
    var container: List?

    /** vListInitialiseItem. */
    constructor (owner: nat, value: Tick)
      ensures this.owner == owner && this.value == value && container == null
    {
      this.owner, this.value := owner, value;
      next, previous, container := null, null, null;
    }
  }

  /** The entries the items stand for. */
  ghost function EntriesOf(items: seq<ListItem>): (r: seq<Entry>)
    reads items
    ensures |r| == |items|
    ensures forall i :: 0 <= i < |items| ==> r[i] == Entry(items[i].owner, items[i].value)
  {
    if items == [] then [] else [Entry(items[0].owner, items[0].value)] + EntriesOf(items[1..])
  }

  /** The order in which repeated calls of Next visit the items when the index is at `pos`. */
  ghost function Turn<T>(items: seq<T>, pos: nat): seq<T>
    requires pos <= |items|
  {
    items[pos..] + items[..pos]
  }

  /** Every item points to its successor in the sequence, and back. */
  ghost predicate Linked(ring: seq<ListItem>)
    reads ring
  {
    forall i :: 0 <= i < |ring| - 1 ==> ring[i].next == ring[i + 1] && ring[i + 1].previous == ring[i]
  }

  /** Only the first and the last, both the sentinel, may be the same. */
  ghost predicate AllDifferent(ring: seq<ListItem>) {
    forall i, j :: 0 <= i < j < |ring| && !(i == 0 && j == |ring| - 1) ==> ring[i] != ring[j]
  }

  lemma LinkAt(ring: seq<ListItem>, p: nat)
    requires Linked(ring) && p + 1 < |ring|
    ensures ring[p].next == ring[p + 1] && ring[p + 1].previous == ring[p]
  {
  }

  class List {
    var numberOfItems: nat
    var index: ListItem
    const end: ListItem
    ghost var items: seq<ListItem>
    ghost var pos: nat

    /** Once around: from the sentinel through the items back to the sentinel. */
    ghost function Ring(): seq<ListItem>
      reads `items
    {
      [end] + items + [end]
    }

    ghost predicate Valid()
      reads this, end, items
    {
      && Linked(Ring()) && AllDifferent(Ring())
      && numberOfItems == |items|
      && end.value == MAX_DELAY
      && (forall x :: x in items ==> x.container == this)
      && pos <= |items| && index == Ring()[pos]
    }

    ghost function Entries(): seq<Entry>
      reads this, items
    {
      EntriesOf(items)
    }

    lemma RingInsert(s: seq<ListItem>, p: nat, item: ListItem)
      requires p <= |s|
      ensures ([end] + s + [end])[..p + 1] + [item] + ([end] + s + [end])[p + 1..]
           == [end] + (s[..p] + [item] + s[p..]) + [end]
    {
    }

    /** vListInitialise. */
    constructor ()
      ensures Valid() && items == [] && pos == 0 && fresh(end)
    {
      var e := new ListItem(0, MAX_DELAY);
      end := e;
      index := e;
      numberOfItems := 0;
      items, pos := [], 0;
      new;
      end.next := end;
      end.previous := end;
    }

    /** The pointer writes of both insertions: `item` goes between `after` and its successor. */
    method LinkIn(after: ListItem, item: ListItem, ghost ring: seq<ListItem>, ghost p: nat)
      requires Linked(ring) && AllDifferent(ring) && item !in ring
      requires p + 1 < |ring| && after == ring[p]
      modifies ring, item
      ensures Linked(ring[..p + 1] + [item] + ring[p + 1..])
      ensures AllDifferent(ring[..p + 1] + [item] + ring[p + 1..])
      ensures item.container == this && item.value == old(item.value)
      ensures forall x :: x in ring ==> x.container == old(x.container) && x.value == old(x.value)
    {
      LinkAt(ring, p);
      assert ring[p] in ring && ring[p + 1] in ring;
      item.next := after.next;
      item.next.previous := item;
      item.previous := after;
      after.next := item;
      item.container := this;
      ghost var now := ring[..p + 1] + [item] + ring[p + 1..];
      assert now[p + 1] == item && |now| == |ring| + 1;
      forall i | 0 <= i < |now| - 1
        ensures now[i].next == now[i + 1]
        ensures now[i + 1].previous == now[i]
      {
        if i < p {
          assert now[i] == ring[i] && now[i + 1] == ring[i + 1];
          assert ring[i] != ring[p] && ring[i + 1] != ring[p + 1];
          assert old(ring[i].next) == ring[i + 1] && old(ring[i + 1].previous) == ring[i];
        } else if i > p + 1 {
          assert now[i] == ring[i - 1] && now[i + 1] == ring[i];
          assert ring[i - 1] != ring[p] && ring[i] != ring[p + 1];
          assert old(ring[i - 1].next) == ring[i] && old(ring[i].previous) == ring[i - 1];
        }
      }
    }

    /** vListInsertEnd: the new item goes just before the index, so that Next comes to it after all
        the others but the one it returned last. */
    method InsertEnd(item: ListItem)
      requires Valid() && item !in items && item != end
      modifies this, items, end, item
      ensures Valid()
      ensures index == old(index)
      ensures item.value == old(item.value) && forall x :: x in old(items) ==> x.value == old(x.value)
      ensures if old(pos) == 0 then items == old(items) + [item] && pos == 0
              else items == old(items)[..old(pos) - 1] + [item] + old(items)[old(pos) - 1..] && pos == old(pos) + 1
      ensures if old(pos) == 0 then Turn(items, pos) == old(Turn(items, pos)) + [item]
              else var turn := old(Turn(items, pos));
                   |turn| > 0 && Turn(items, pos) == turn[..|turn| - 1] + [item] + [turn[|turn| - 1]]
    {
      hide Linked, AllDifferent, Turn;
      EndTurn(items, pos, item);
      ghost var p := if pos == 0 then |items| else pos - 1;
      LinkAt(Ring(), p);
      assert index == Ring()[p + 1];
      RingInsert(items, p, item);
      LinkIn(index.previous, item, Ring(), p);
      numberOfItems := numberOfItems + 1;
      items := items[..p] + [item] + items[p..];
      pos := if pos == 0 then 0 else pos + 1;
    }

    /** vListInsert: the new item goes before the first greater value, hence after its equals.  The
        walk stops at the latest at the sentinel, whose value no smaller one reaches; the greatest
        value of all is put at the end without a walk. */
    method Insert(item: ListItem)
      requires Valid() && item !in items && item != end
      modifies this, items, end, item
      ensures Valid()
      ensures item.value == old(item.value) && forall x :: x in old(items) ==> x.value == old(x.value)
      ensures index == old(index)
      ensures var k := UpperBound(old(Entries()), item.value);
              && items == old(items)[..k] + [item] + old(items)[k..]
              && Entries() == Inserted(old(Entries()), Entry(item.owner, item.value))
    {
      hide Linked, AllDifferent, UpperBound, EntriesOf;
      ghost var entries := Entries();
      var cursor, p := FindPlace(item.value);
      LinkNew(cursor, item, p);
      SplicedEntries(entries, items, p);
    }

    /** The walk would go round for ever exactly for the one value that is handled apart. */
    lemma OnlyTheGreatestValueNeverStops(value: Tick)
      requires Valid()
      ensures (forall x :: x in Ring() ==> x.value <= value) <==> value == MAX_DELAY
    {
      assert Ring()[0] == end;
    }

    /** The walk from the sentinel to the item after which `value` belongs. */
    method FindPlace(value: Tick) returns (cursor: ListItem, ghost p: nat)
      requires Valid()
      ensures p == UpperBound(Entries(), value) <= |items| && cursor == Ring()[UpperBound(Entries(), value)]
    {
      hide Linked, AllDifferent, UpperBound;
      if value == MAX_DELAY {
        p := |items|;
        LinkAt(Ring(), p);
        cursor := end.previous;
      } else {
        cursor, p := end, 0;
        LinkAt(Ring(), 0);
        while cursor.next.value <= value
          invariant 0 <= p <= |items| && cursor == Ring()[p] && cursor.next == Ring()[p + 1]
          invariant forall i :: 0 <= i < p ==> items[i].value <= value
          decreases |items| - p
        {
          assert Ring()[p + 1] == (if p < |items| then items[p] else end);
          cursor := cursor.next;
          p := p + 1;
          LinkAt(Ring(), p);
        }
        assert Ring()[p + 1] == (if p < |items| then items[p] else end);
      }
      FirstGreater(Entries(), value, p);
    }

    /** Link `item` in as number `p` and keep the count and the index in step. */
    method LinkNew(after: ListItem, item: ListItem, ghost p: nat)
      requires Valid() && item !in items && item != end
      requires p <= |items| && after == Ring()[p]
      modifies this, items, end, item
      ensures Valid()
      ensures items == old(items)[..p] + [item] + old(items)[p..]
      ensures item.value == old(item.value) && forall x :: x in old(items) ==> x.value == old(x.value)
      ensures index == old(index)
    {
      hide Linked, AllDifferent;
      RingInsert(items, p, item);
      LinkIn(after, item, Ring(), p);
      numberOfItems := numberOfItems + 1;
      items := items[..p] + [item] + items[p..];
      pos := if p < pos then pos + 1 else pos;
    }

    /** The pointer writes of the removal of ring[p]. */
    method LinkOut(item: ListItem, ghost ring: seq<ListItem>, ghost p: nat)
      requires Linked(ring) && AllDifferent(ring)
      requires 0 < p < |ring| - 1 && item == ring[p]
      modifies ring
      ensures Linked(ring[..p] + ring[p + 1..]) && AllDifferent(ring[..p] + ring[p + 1..])
      ensures item.previous == ring[p - 1]
      ensures forall x :: x in ring ==> x.container == old(x.container) && x.value == old(x.value)
    {
      LinkAt(ring, p);
      LinkAt(ring, p - 1);
      assert ring[p - 1] in ring && ring[p + 1] in ring;
      assert ring[p] != ring[p - 1] && ring[p] != ring[p + 1];
      item.next.previous := item.previous;
      item.previous.next := item.next;
      ghost var now := ring[..p] + ring[p + 1..];
      forall i | 0 <= i < |now| - 1
        ensures now[i].next == now[i + 1] && now[i + 1].previous == now[i]
      {
        if i < p - 1 {
          assert now[i] == ring[i] && now[i + 1] == ring[i + 1];
          assert ring[i] != ring[p - 1] && ring[i + 1] != ring[p + 1];
          assert old(ring[i].next) == ring[i + 1] && old(ring[i + 1].previous) == ring[i];
        } else if i >= p {
          assert now[i] == ring[i + 1] && now[i + 1] == ring[i + 2];
          assert ring[i + 1] != ring[p - 1] && ring[i + 2] != ring[p + 1];
          assert old(ring[i + 1].next) == ring[i + 2] && old(ring[i + 2].previous) == ring[i + 1];
        }
      }
    }

    lemma RingRemove(s: seq<ListItem>, k: nat)
      requires k < |s|
      ensures ([end] + s + [end])[..k + 1] + ([end] + s + [end])[k + 2..] == [end] + (s[..k] + s[k + 1..]) + [end]
    {
    }

    /** uxListRemove: exactly this item leaves.  An index that pointed to it steps back, so that the
        turns of the others come in the same order as before. */
    static method Remove(item: ListItem) returns (count: nat, ghost k: nat)
      requires item.container != null && item.container.Valid() && item in item.container.items
      modifies item.container, item.container.items, item.container.end
      ensures var list := old(item.container);
              && list.Valid() && item.container == null
              && count == list.numberOfItems == |old(list.items)| - 1
              && k < |old(list.items)| && old(list.items)[k] == item
              && list.items == old(list.items)[..k] + old(list.items)[k + 1..]
              && (if old(list.index) == item then list.index == old(item.previous) else list.index == old(list.index))
              && var turn, j := old(Turn(list.items, list.pos)), TurnIndex(|old(list.items)|, old(list.pos), k);
                 j < |turn| && turn[j] == item && Turn(list.items, list.pos) == turn[..j] + turn[j + 1..]
      ensures DistinctOwners(old(item.container.Entries())) ==>
                old(item.container).Entries() == Without(old(item.container.Entries()), item.owner)
      ensures forall x :: x in old(item.container.items) ==> x.value == old(x.value)
    {
      hide Linked, AllDifferent, Turn, EntriesOf, Without, DistinctOwners;
      var list := item.container;
      ghost var entries := list.Entries();
      k :| k < |list.items| && list.items[k] == item;
      RemovedTurn(list.items, list.pos, k);
      list.Detach(item, k);
      RemovedEntries(entries, list.items, k);
      if DistinctOwners(entries) {
        WithoutAt(entries, k);
      }
      count := list.numberOfItems;
    }

    method Detach(item: ListItem, ghost k: nat)
      requires Valid() && k < |items| && item == items[k]
      modifies this, items, end
      ensures Valid() && item.container == null
      ensures items == old(items)[..k] + old(items)[k + 1..]
      ensures pos == if k < old(pos) then old(pos) - 1 else old(pos)
      ensures index == if old(index) == item then old(item.previous) else old(index)
      ensures forall x :: x in old(items) ==> x.value == old(x.value)
    {
      hide Linked, AllDifferent;
      SeparateItems(k);
      RingRemove(items, k);
      LinkAt(Ring(), k);
      LinkOut(item, Ring(), k + 1);
      if index == item {
        index := item.previous;
      }
      item.container := null;
      numberOfItems := numberOfItems - 1;
      items := items[..k] + items[k + 1..];
      pos := if k < pos then pos - 1 else pos;
      assert forall x :: x in items ==> x in old(items) && x != item;
    }

    /** The item with number `k` occurs once, and the index points to it exactly from position k + 1. */
    lemma SeparateItems(k: nat)
      requires Valid() && k < |items|
      ensures items[k] !in items[..k] + items[k + 1..] && items[k] != end
      ensures index == items[k] <==> pos == k + 1
      ensures items[k] in items && Ring()[k + 1] == items[k] && Ring()[k] == (if k == 0 then end else items[k - 1])
    {
      var ring := Ring();
      assert forall i :: 0 <= i < |items| ==> ring[i + 1] == items[i];
      assert ring[0] == end && ring[k + 1] == items[k];
      forall i | 0 <= i < |items| && i != k ensures items[i] != items[k] {
        assert ring[i + 1] != ring[k + 1];
      }
      assert ring[0] != ring[k + 1];
      assert pos != k + 1 ==> ring[pos] != ring[k + 1];
    }

    lemma IndexAtEnd()
      requires Valid()
      ensures index == end <==> pos == 0
    {
      if pos > 0 {
        assert Ring()[0] != Ring()[pos];
      }
    }

    /** listGET_OWNER_OF_NEXT_ENTRY: the item whose turn it is comes up and goes to the back of the
        order. */
    method Next() returns (item: ListItem)
      requires Valid() && items != []
      modifies `index, `pos
      ensures Valid()
      ensures var turn := old(Turn(items, pos));
              |turn| == |items| && item == turn[0] && Turn(items, pos) == turn[1..] + [turn[0]]
      ensures item == index
    {
      hide Linked, AllDifferent;
      LinkAt(Ring(), pos);
      index := index.next;
      pos := if pos == |items| then 0 else pos + 1;
      assert Valid();
      IndexAtEnd();
      if index == end {
        LinkAt(Ring(), 0);
        index := index.next;
        pos := 1;
      }
      item := index;
    }
  }

  /** Where the item with number `k` of `n` stands in the order of turns. */
  function TurnIndex(n: nat, pos: nat, k: nat): nat
    requires k < n && pos <= n
  {
    if k >= pos then k - pos else n - pos + k
  }

  lemma RemovedTurn<T>(items: seq<T>, pos: nat, k: nat)
    requires k < |items| && pos <= |items|
    ensures var turn, j := Turn(items, pos), TurnIndex(|items|, pos, k);
            && j < |turn| && turn[j] == items[k]
            && Turn(items[..k] + items[k + 1..], if k < pos then pos - 1 else pos) == turn[..j] + turn[j + 1..]
  {
    var turn, j, rest := Turn(items, pos), TurnIndex(|items|, pos, k), items[..k] + items[k + 1..];
    if k < pos {
      assert rest[pos - 1..] == items[pos..];
      assert rest[..pos - 1] == items[..k] + items[k + 1..pos];
      assert turn[..j] == items[pos..] + items[..k];
      assert turn[j + 1..] == items[k + 1..pos];
      Regroup(items[pos..], items[..k], items[k + 1..pos]);
    } else {
      assert rest[pos..] == items[pos..k] + items[k + 1..];
      assert rest[..pos] == items[..pos];
      assert turn[..j] == items[pos..k];
      assert turn[j + 1..] == items[k + 1..] + items[..pos];
      Regroup(items[pos..k], items[k + 1..], items[..pos]);
    }
  }

  lemma EndTurn<T>(items: seq<T>, pos: nat, item: T)
    requires pos <= |items|
    ensures pos == 0 ==> Turn(items + [item], 0) == Turn(items, 0) + [item]
    ensures pos > 0 ==>
      var turn := Turn(items, pos);
      |turn| > 0 && Turn(items[..pos - 1] + [item] + items[pos - 1..], pos + 1) == turn[..|turn| - 1] + [item] + [turn[|turn| - 1]]
  {
  }

  lemma SplicedEntries(before: seq<Entry>, items: seq<ListItem>, p: nat)
    requires p <= |before| && |items| == |before| + 1
    requires forall i :: 0 <= i < p ==> before[i] == Entry(items[i].owner, items[i].value)
    requires forall i :: p <= i < |before| ==> before[i] == Entry(items[i + 1].owner, items[i + 1].value)
    ensures EntriesOf(items) == before[..p] + [Entry(items[p].owner, items[p].value)] + before[p..]
  {
    hide EntriesOf;
    var a, b := EntriesOf(items), before[..p] + [Entry(items[p].owner, items[p].value)] + before[p..];
    forall i | 0 <= i < |a| ensures a[i] == b[i] {
      if i > p {
        assert b[i] == before[i - 1];
      }
    }
  }

  lemma RemovedEntries(before: seq<Entry>, items: seq<ListItem>, k: nat)
    requires k < |before| && |items| == |before| - 1
    requires forall i :: 0 <= i < k ==> before[i] == Entry(items[i].owner, items[i].value)
    requires forall i :: k < i < |before| ==> before[i] == Entry(items[i - 1].owner, items[i - 1].value)
    ensures EntriesOf(items) == before[..k] + before[k + 1..]
  {
    hide EntriesOf;
    var a, b := EntriesOf(items), before[..k] + before[k + 1..];
    forall i | 0 <= i < |a| ensures a[i] == b[i] {
      if i >= k {
        assert b[i] == before[i + 1];
      }
    }
  }

  lemma FirstGreater(s: seq<Entry>, v: Tick, p: nat)
    requires p <= |s| && (forall i :: 0 <= i < p ==> s[i].value <= v) && (p < |s| ==> v < s[p].value)
    ensures UpperBound(s, v) == p
  {
  }
}
