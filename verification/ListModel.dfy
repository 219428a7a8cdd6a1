/** What a kernel list stands for: the entries between the end marker and itself, in order. */
module ListModel {
  import opened Ticks

  /** One list item: the object that owns it and the value it is sorted by. */
  datatype Entry = Entry(owner: nat, value: Tick)

  ghost predicate Sorted(s: seq<Entry>) {
    forall i, j :: 0 <= i < j < |s| ==> s[i].value <= s[j].value
  }

  ghost predicate DistinctOwners(s: seq<Entry>) {
    forall i, j :: 0 <= i < j < |s| ==> s[i].owner != s[j].owner
  }

  function Owners(s: seq<Entry>): set<nat> {
    set e | e in s :: e.owner
  }

  /** The first position whose value is greater than `v`, or the end. */
  function UpperBound(s: seq<Entry>, v: Tick): (k: nat)
    ensures k <= |s|
    ensures forall i :: 0 <= i < k ==> s[i].value <= v
    ensures k < |s| ==> v < s[k].value
  {
    if s == [] || v < s[0].value then 0 else 1 + UpperBound(s[1..], v)
  }

  /** The list after a sorted insertion. */
  function Inserted(s: seq<Entry>, e: Entry): seq<Entry> {
    var k := UpperBound(s, e.value);
    s[..k] + [e] + s[k..]
  }

  /** The list without the entries of one owner. */
  function Without(s: seq<Entry>, owner: nat): seq<Entry> {
    if s == [] then []
    else if s[0].owner == owner then Without(s[1..], owner)
    else [s[0]] + Without(s[1..], owner)
  }

  lemma InsertedMembers(s: seq<Entry>, e: Entry)
    ensures forall x :: x in Inserted(s, e) <==> x in s || x == e
    ensures Owners(Inserted(s, e)) == Owners(s) + {e.owner}
  {
    var k := UpperBound(s, e.value);
    assert s == s[..k] + s[k..];
    forall x ensures x in Inserted(s, e) <==> x in s || x == e {
      assert x in s <==> x in s[..k] || x in s[k..];
    }
    assert e in Inserted(s, e);
  }

  /** Sorted insertion keeps the list sorted and puts the new entry after its equals. */
  lemma InsertedSorted(s: seq<Entry>, e: Entry)
    requires Sorted(s)
    ensures Sorted(Inserted(s, e))
    ensures forall x :: x in s[UpperBound(s, e.value)..] ==> e.value < x.value
  {
    var k := UpperBound(s, e.value);
    forall j | k <= j < |s| ensures e.value < s[j].value {
      assert s[k].value <= s[j].value;
    }
  }

  lemma InsertedDistinct(s: seq<Entry>, e: Entry)
    requires DistinctOwners(s) && e.owner !in Owners(s)
    ensures DistinctOwners(Inserted(s, e))
  {
    var k := UpperBound(s, e.value);
    forall i | 0 <= i < |s| ensures s[i].owner != e.owner {
      assert s[i] in s;
    }
  }

  lemma {:induction false} WithoutMembers(s: seq<Entry>, owner: nat)
    ensures forall x :: x in Without(s, owner) <==> x in s && x.owner != owner
    ensures Owners(Without(s, owner)) == Owners(s) - {owner}
  {
    if s != [] {
      WithoutMembers(s[1..], owner);
      assert s == [s[0]] + s[1..];
    }
    assert forall x :: x in Without(s, owner) <==> x in s && x.owner != owner;
  }

  lemma {:induction false} WithoutSorted(s: seq<Entry>, owner: nat)
    requires Sorted(s)
    ensures Sorted(Without(s, owner))
  {
    if s != [] {
      WithoutSorted(s[1..], owner);
      forall x | x in Without(s[1..], owner) ensures s[0].value <= x.value {
        WithoutMembers(s[1..], owner);
      }
    }
  }

  lemma {:induction false} WithoutDistinct(s: seq<Entry>, owner: nat)
    requires DistinctOwners(s)
    ensures DistinctOwners(Without(s, owner))
  {
    if s != [] {
      WithoutDistinct(s[1..], owner);
      forall x | x in Without(s[1..], owner) ensures s[0].owner != x.owner {
        WithoutMembers(s[1..], owner);
      }
    }
  }

  /** Where owners are distinct, it is the removal of one position. */
  lemma {:induction false} WithoutAt(s: seq<Entry>, k: nat)
    requires DistinctOwners(s) && k < |s|
    ensures Without(s, s[k].owner) == s[..k] + s[k + 1..]
  {
    if k == 0 {
      assert s[0].owner !in Owners(s[1..]) by {
        forall e | e in s[1..] ensures e.owner != s[0].owner {
          var i :| 0 <= i < |s[1..]| && s[1..][i] == e;
          assert s[i + 1] == e;
        }
      }
      WithoutAbsent(s[1..], s[0].owner);
    } else {
      WithoutAt(s[1..], k - 1);
      assert s[0].owner != s[k].owner;
      assert s[..k] + s[k + 1..] == [s[0]] + (s[1..][..k - 1] + s[1..][k..]);
    }
  }

  lemma {:induction false} WithoutAbsent(s: seq<Entry>, owner: nat)
    requires owner !in Owners(s)
    ensures Without(s, owner) == s
  {
    if s != [] {
      assert s[0] in s;
      assert forall x :: x in s[1..] ==> x in s;
      WithoutAbsent(s[1..], owner);
    }
  }

  /** Dropping the head of a list. */
  lemma TailFacts(s: seq<Entry>)
    requires s != [] && Sorted(s) && DistinctOwners(s)
    ensures Sorted(s[1..]) && DistinctOwners(s[1..])
    ensures Owners(s[1..]) == Owners(s) - {s[0].owner}
    ensures s[0].owner in Owners(s)
    ensures forall x :: x in s ==> s[0].value <= x.value
  {
    assert s[0] in s;
    assert s == [s[0]] + s[1..];
    forall x | x in s[1..] ensures x.owner != s[0].owner && s[0].value <= x.value {
      var i :| 0 <= i < |s[1..]| && s[1..][i] == x;
      assert s[i + 1] == x;
    }
    assert forall x :: x in s <==> x == s[0] || x in s[1..];
  }
}
