/** Small facts about sequences and the bytes they are made of, shared by the other modules. */
module Sequences {

  type Byte = c: nat | c < 0x100

  datatype Option<T> = None | Some(value: T)

  lemma Regroup<T>(a: seq<T>, b: seq<T>, c: seq<T>)
    ensures a + b + c == a + (b + c)
  {
  }

  ghost predicate Distinct<T>(s: seq<T>) {
    forall i, j :: 0 <= i < j < |s| ==> s[i] != s[j]
  }

  /** A sequence without an element. */
  function Removed<T(==)>(s: seq<T>, x: T): (r: seq<T>)
    ensures x !in r
    ensures s == [] ==> r == []
  {
    if s == [] then [] else (if s[0] == x then [] else [s[0]]) + Removed(s[1..], x)
  }

  /** Only that element is gone, and nothing is repeated that was not. */
  lemma {:induction false} RemovedMembers<T>(s: seq<T>, x: T)
    ensures forall y :: y in Removed(s, x) <==> y in s && y != x
    ensures Distinct(s) ==> Distinct(Removed(s, x))
  {
    if s != [] {
      RemovedMembers(s[1..], x);
      assert s == [s[0]] + s[1..];
      assert Distinct(s) ==> Distinct(s[1..]) && s[0] !in s[1..];
    }
  }

  /** Where nothing is repeated, it is the removal of one position. */
  lemma {:induction false} RemovedAt<T>(s: seq<T>, k: nat)
    requires Distinct(s) && k < |s|
    ensures Removed(s, s[k]) == s[..k] + s[k + 1..]
  {
    if k == 0 {
      RemovedAbsent(s[1..], s[0]);
    } else {
      RemovedAt(s[1..], k - 1);
      assert s[..k] + s[k + 1..] == [s[0]] + (s[1..][..k - 1] + s[1..][k..]);
    }
  }

  lemma {:induction false} RemovedAbsent<T>(s: seq<T>, x: T)
    requires x !in s
    ensures Removed(s, x) == s
  {
    if s != [] {
      assert s == [s[0]] + s[1..];
      RemovedAbsent(s[1..], x);
    }
  }
}
