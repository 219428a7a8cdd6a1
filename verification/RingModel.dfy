/** The byte ring a queue keeps its items in, on values. */
module RingModel {
  import opened Sequences

  type Item = seq<Byte>

  /** The bytes of slot `s`. */
  function Slot(bytes: seq<Byte>, size: nat, s: nat): Item
    requires (s + 1) * size <= |bytes|
  {
    SlotFits(size, s);
    bytes[s * size..(s + 1) * size]
  }

  lemma SlotFits(size: nat, s: nat)
    ensures 0 <= s * size <= (s + 1) * size == s * size + size
  {
  }

  lemma SlotInside(size: nat, s: nat, length: nat)
    requires s < length
    ensures (s + 1) * size <= length * size
  {
    assert length * size == (s + 1) * size + (length - s - 1) * size;
  }

  /** `n` items from slot `first` on, around the ring. */
  function Items(bytes: seq<Byte>, size: nat, length: nat, first: nat, n: nat): (r: seq<Item>)
    requires length > 0 && |bytes| == length * size
    ensures |r| == n
    decreases n
  {
    if n == 0 then []
    else
      SlotInside(size, first % length, length);
      [Slot(bytes, size, first % length)] + Items(bytes, size, length, first + 1, n - 1)
  }

  lemma {:induction false} ItemsAt(bytes: seq<Byte>, size: nat, length: nat, first: nat, n: nat, i: nat)
    requires length > 0 && |bytes| == length * size && i < n
    ensures ((first + i) % length + 1) * size <= |bytes|
    ensures Items(bytes, size, length, first, n)[i] == Slot(bytes, size, (first + i) % length)
    decreases n
  {
    SlotInside(size, (first + i) % length, length);
    if i > 0 {
      ItemsAt(bytes, size, length, first + 1, n - 1, i - 1);
    }
  }

  /** Where the ring starts counts only modulo its length. */
  lemma {:induction false} ItemsWrap(bytes: seq<Byte>, size: nat, length: nat, first: nat, n: nat)
    requires length > 0 && |bytes| == length * size
    ensures Items(bytes, size, length, first % length, n) == Items(bytes, size, length, first, n)
  {
    var a, b := Items(bytes, size, length, first % length, n), Items(bytes, size, length, first, n);
    forall i: nat | i < n ensures a[i] == b[i] {
      ItemsAt(bytes, size, length, first % length, n, i);
      ItemsAt(bytes, size, length, first, n, i);
      ModPlus(first, i, length);
    }
  }

  lemma ModPlus(a: nat, b: nat, m: nat)
    requires m > 0
    ensures (a % m + b) % m == (a + b) % m
  {
    var q := a / m;
    assert a + b == (a % m + b) + q * m;
    ModShift(a % m + b, q, m);
  }

  lemma {:induction false} ModShift(a: nat, q: nat, m: nat)
    requires m > 0
    ensures (a + q * m) % m == a % m
  {
    if q > 0 {
      ModShift(a, q - 1, m);
      assert a + q * m == (a + (q - 1) * m) + m;
      ModOnce(a + (q - 1) * m, m);
    }
  }

  lemma ModOnce(a: nat, m: nat)
    requires m > 0
    ensures (a + m) % m == a % m
  {
    var q, r := a / m, a % m;
    assert a + m == (q + 1) * m + r;
    ModUnique(a + m, m, q + 1, r);
  }

  lemma ModUnique(a: nat, m: nat, q: nat, r: nat)
    requires a == q * m + r && r < m
    ensures a % m == r
  {
    var q', r' := a / m, a % m;
    assert (q' - q) * m == r - r';
    if q' > q { AtLeast(q' - q, m); } else if q' < q { AtLeast(q - q', m); }
  }

  lemma AtLeast(k: nat, m: nat)
    requires k >= 1
    ensures k * m >= m
  {
  }

  /** Two slots of one turn of the ring are different. */
  lemma OneTurn(first: nat, i: nat, j: nat, length: nat)
    requires length > 0 && i < j < length
    ensures (first + i) % length != (first + j) % length
  {
    var q1, q2 := (first + i) / length, (first + j) / length;
    if (first + i) % length == (first + j) % length {
      assert (q2 - q1) * length == j - i;
      if q2 > q1 { AtLeast(q2 - q1, length); }
    }
  }

  /** memcpy of an item to byte offset `at`. */
  function Write(bytes: seq<Byte>, at: nat, item: Item): (r: seq<Byte>)
    requires at + |item| <= |bytes|
    ensures |r| == |bytes|
  {
    bytes[..at] + item + bytes[at + |item|..]
  }

  lemma WriteSlot(bytes: seq<Byte>, size: nat, length: nat, s: nat, item: Item, t: nat)
    requires |bytes| == length * size && s < length && t < length && |item| == size
    ensures s * size + size <= |bytes| && (t + 1) * size <= |bytes|
    ensures Slot(Write(bytes, s * size, item), size, t) == if t == s then item else Slot(bytes, size, t)
  {
    SlotInside(size, s, length);
    SlotInside(size, t, length);
    SlotFits(size, s);
    SlotFits(size, t);
    hide Write;
    if t < s {
      SlotInside(size, t, s);
      WriteElsewhere(bytes, s * size, item, t * size, (t + 1) * size);
    } else if s < t {
      SlotInside(size, s, t);
      WriteElsewhere(bytes, s * size, item, t * size, (t + 1) * size);
    } else {
      WriteHere(bytes, s * size, item);
    }
  }

  lemma WriteElsewhere(bytes: seq<Byte>, at: nat, item: Item, i: nat, j: nat)
    requires at + |item| <= |bytes| && i <= j <= |bytes| && (j <= at || at + |item| <= i)
    ensures Write(bytes, at, item)[i..j] == bytes[i..j]
  {
  }

  lemma WriteHere(bytes: seq<Byte>, at: nat, item: Item)
    requires at + |item| <= |bytes|
    ensures Write(bytes, at, item)[at..at + |item|] == item
  {
  }

  /** A back send: the slot after the stretch is written and joins it. */
  lemma BackSend(bytes: seq<Byte>, size: nat, length: nat, first: nat, n: nat, item: Item)
    requires n < length && |bytes| == length * size && |item| == size
    ensures (first + n) % length * size + size <= |bytes|
    ensures Items(Write(bytes, (first + n) % length * size, item), size, length, first, n + 1)
         == Items(bytes, size, length, first, n) + [item]
  {
    var s := (first + n) % length;
    SlotInside(size, s, length);
    var written := Write(bytes, s * size, item);
    var a, b := Items(written, size, length, first, n + 1), Items(bytes, size, length, first, n) + [item];
    forall i: nat | i < n + 1 ensures a[i] == b[i] {
      ItemsAt(written, size, length, first, n + 1, i);
      WriteSlot(bytes, size, length, s, item, (first + i) % length);
      if i < n {
        ItemsAt(bytes, size, length, first, n, i);
        OneTurn(first, i, n, length);
      }
    }
  }

  /** A front send: the slot before the stretch is written and joins it. */
  lemma FrontSend(bytes: seq<Byte>, size: nat, length: nat, s: nat, n: nat, item: Item)
    requires n < length && s < length && |bytes| == length * size && |item| == size
    ensures s * size + size <= |bytes|
    ensures Items(Write(bytes, s * size, item), size, length, s, n + 1)
         == [item] + Items(bytes, size, length, s + 1, n)
  {
    hide Items, Slot, Write;
    SlotInside(size, s, length);
    ModUnique(s, length, 0, s);
    var written := Write(bytes, s * size, item);
    var a, b := Items(written, size, length, s, n + 1), [item] + Items(bytes, size, length, s + 1, n);
    forall i: nat | i < n + 1 ensures a[i] == b[i] {
      ItemsAt(written, size, length, s, n + 1, i);
      WriteSlot(bytes, size, length, s, item, (s + i) % length);
      if i > 0 {
        ItemsAt(bytes, size, length, s + 1, n, i - 1);
        OneTurn(s, 0, i, length);
        assert s + 1 + (i - 1) == s + i;
      }
    }
  }

  /** Stepping a pointer to the next slot, with the wrap at the end of the storage area. */
  lemma NextPointer(s: nat, size: nat, length: nat)
    requires s < length && size > 0
    ensures s * size + size >= length * size <==> s + 1 == length
    ensures (s + 1) * size == s * size + size
    ensures (s + 1) % length == if s + 1 == length then 0 else s + 1
  {
    if s + 1 < length {
      SlotInside(size, s + 1, length);
      ModUnique(s + 1, length, 0, s + 1);
    } else {
      ModUnique(length, length, 1, 0);
    }
  }

  lemma NextModulo(a: nat, m: nat)
    requires m > 0
    ensures (a + 1) % m == (a % m + 1) % m
  {
    ModPlus(a, 1, m);
  }

  /** Stepping a pointer to the previous slot. */
  lemma PreviousPointer(s: nat, size: nat, length: nat)
    requires s < length && size > 0
    ensures s * size - size < 0 <==> s == 0
    ensures s > 0 ==> (s - 1) * size == s * size - size
    ensures (length - 1) * size == length * size - size
  {
    if s > 0 {
      AtLeast(s, size);
    }
  }

  lemma {:induction false} EmptyItems(bytes: seq<Byte>, length: nat, first: nat, n: nat)
    requires length > 0 && bytes == []
    ensures Items(bytes, 0, length, first, n) == seq(n, i => [])
    decreases n
  {
    if n > 0 {
      EmptyItems(bytes, length, first + 1, n - 1);
    }
  }

  /** Where the stretch starts once the slot before it has been given to a front send. */
  lemma FrontWrap(bytes: seq<Byte>, size: nat, length: nat, s: nat, n: nat)
    requires s < length && |bytes| == length * size
    ensures Items(bytes, size, length, (if s == 0 then length - 1 else s - 1) + 1, n) == Items(bytes, size, length, s, n)
    ensures ((if s == 0 then length - 1 else s - 1) + 1 + (n + 1)) % length == (s + 1 + n) % length
  {
    if s == 0 {
      ModUnique(length, length, 1, 0);
      ItemsWrap(bytes, size, length, length, n);
      ModOnce(n + 1, length);
    }
  }

  /** Taking the first item: the stretch moves on by one slot. */
  lemma TakeFirst(bytes: seq<Byte>, size: nat, length: nat, r: nat, n: nat)
    requires r < length && 0 < n && |bytes| == length * size
    ensures ((r + 1) % length + 1) * size <= |bytes|
    ensures Items(bytes, size, length, r + 1, n)
         == [Slot(bytes, size, (r + 1) % length)] + Items(bytes, size, length, (r + 1) % length + 1, n - 1)
    ensures ((r + 1) % length + 1 + (n - 1)) % length == (r + 1 + n) % length
  {
    SlotInside(size, (r + 1) % length, length);
    ItemsWrap(bytes, size, length, r + 2, n - 1);
    ItemsWrap(bytes, size, length, (r + 1) % length + 1, n - 1);
    NextModulo(r + 1, length);
    ModPlus(r + 1, n, length);
  }
}
