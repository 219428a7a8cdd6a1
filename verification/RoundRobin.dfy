/** How the co-routines of one priority take turns.  A ready list is a kernel list with an index that walks
    over it; co-routines join it just before the index, and one that leaves takes the index back a step. */
module RoundRobin {
  import opened Sequences
  import Lists

  type CoId = nat

  /** A choice of the scheduler, with the co-routines that were ready and their priorities. */
  datatype Pick = Pick(co: CoId, at: nat, ready: map<CoId, nat>)

  ghost predicate TopPick(pick: Pick) {
    pick.co in pick.ready && forall c :: c in pick.ready ==> pick.ready[c] <= pick.ready[pick.co]
  }

  /** How often others of its priority were picked since `c` was last picked or became ready. */
  function Passed(picks: seq<Pick>, c: CoId): nat {
    if picks == [] then 0
    else
      var last := picks[|picks| - 1];
      if last.co == c || c !in last.ready || last.co !in last.ready then 0
      else Passed(picks[..|picks| - 1], c) + (if last.ready[last.co] == last.ready[c] then 1 else 0)
  }

  lemma PassedNext(picks: seq<Pick>, pick: Pick, c: CoId)
    ensures Passed(picks + [pick], c)
         == if pick.co == c || c !in pick.ready || pick.co !in pick.ready then 0
            else Passed(picks, c) + (if pick.ready[pick.co] == pick.ready[c] then 1 else 0)
  {
    assert (picks + [pick])[..|picks|] == picks;
  }

  // ------------------------------------------------- The list and its index

  /** The list after vListInsertEnd, when the index is at position `at`: 0 for the end marker, k for the
      k-th item. */
  function Joined(list: seq<CoId>, at: nat, c: CoId): (r: seq<CoId>)
    requires at <= |list|
    ensures |r| == |list| + 1
  {
    if at == 0 then list + [c] else list[..at - 1] + [c] + list[at - 1..]
  }

  function JoinedAt(at: nat): nat {
    if at == 0 then 0 else at + 1
  }

  /** Where the index is once item number `k` has left. */
  function LeftAt(at: nat, k: nat): nat {
    if k < at then at - 1 else at
  }

  /** Where the index is after one step, which passes over the end marker. */
  function NextAt(at: nat, length: nat): nat {
    if at < length then at + 1 else 1
  }

  lemma JoinedMembers(list: seq<CoId>, at: nat, c: CoId)
    requires at <= |list|
    ensures forall x :: x in Joined(list, at, c) <==> x in list || x == c
    ensures Distinct(list) && c !in list ==> Distinct(Joined(list, at, c))
  {
    if at > 0 {
      assert list == list[..at - 1] + list[at - 1..];
      assert forall x :: x in Joined(list, at, c) <==> x in list[..at - 1] || x == c || x in list[at - 1..];
    }
  }

  /** Who joins comes after all others but the one that was picked last. */
  lemma JoinedTurn(list: seq<CoId>, at: nat, c: CoId)
    requires at <= |list|
    ensures JoinedAt(at) <= |Joined(list, at, c)|
    ensures var turn := Lists.Turn(list, at);
            Lists.Turn(Joined(list, at, c), JoinedAt(at))
            == if at == 0 then turn + [c] else turn[..|turn| - 1] + [c] + [turn[|turn| - 1]]
  {
    Lists.EndTurn(list, at, c);
  }

  /** Who leaves does not change the order of the others. */
  lemma LeftTurn(list: seq<CoId>, at: nat, k: nat)
    requires k < |list| && at <= |list|
    ensures var turn, j := Lists.Turn(list, at), Lists.TurnIndex(|list|, at, k);
            && j < |turn| && turn[j] == list[k]
            && Lists.Turn(list[..k] + list[k + 1..], LeftAt(at, k)) == turn[..j] + turn[j + 1..]
  {
    Lists.RemovedTurn(list, at, k);
  }

  /** The one whose turn it is goes to the end of the order. */
  lemma NextTurn(list: seq<CoId>, at: nat)
    requires at <= |list| && list != []
    ensures var turn, next := Lists.Turn(list, at), NextAt(at, |list|);
            && list[next - 1] == turn[0]
            && Lists.Turn(list, next) == turn[1..] + [turn[0]]
  {
    if at < |list| {
      assert list[at..] == [list[at]] + list[at + 1..];
      assert list[..at + 1] == list[..at] + [list[at]];
    } else {
      assert list[..1] == [list[0]];
    }
  }

  // -------------------------------------------------------- No one starves

  /** How many picks from this list may come before that of item number `k`, when `n` co-routines have this
      priority.  Behind the index it has to wait for the walk to the end of the list and back. */
  function Ahead(k: nat, at: nat, length: nat, n: nat): int {
    if at > k then length - at + n - 1 else k - at
  }

  /** Nobody on the list has been passed over too often. */
  ghost predicate ListFair(list: seq<CoId>, at: nat, picks: seq<Pick>, n: nat) {
    && at <= |list| <= n
    && forall k :: 0 <= k < |list| ==> Passed(picks, list[k]) + Ahead(k, at, |list|, n) <= 2 * n - 2
  }

  lemma JoinFair(list: seq<CoId>, at: nat, picks: seq<Pick>, n: nat, c: CoId)
    requires ListFair(list, at, picks, n) && |list| < n && Passed(picks, c) == 0
    ensures ListFair(Joined(list, at, c), JoinedAt(at), picks, n)
  {
    hide Passed;
    var after := Joined(list, at, c);
    forall k | 0 <= k < |after|
      ensures Passed(picks, after[k]) + Ahead(k, JoinedAt(at), |after|, n) <= 2 * n - 2
    {
      var place := if at == 0 then |list| else at - 1;
      if k < place {
        assert after[k] == list[k];
      } else if k > place {
        assert after[k] == list[k - 1];
      } else {
        assert after[k] == c;
      }
    }
  }

  lemma LeaveFair(list: seq<CoId>, at: nat, picks: seq<Pick>, n: nat, k: nat)
    requires ListFair(list, at, picks, n) && k < |list|
    ensures ListFair(list[..k] + list[k + 1..], LeftAt(at, k), picks, n)
  {
    hide Passed;
    var after := list[..k] + list[k + 1..];
    forall i | 0 <= i < |after|
      ensures Passed(picks, after[i]) + Ahead(i, LeftAt(at, k), |after|, n) <= 2 * n - 2
    {
      if i < k {
        assert after[i] == list[i];
      } else {
        assert after[i] == list[i + 1];
      }
    }
  }

  lemma MoreFair(list: seq<CoId>, at: nat, picks: seq<Pick>, n: nat, more: nat)
    requires ListFair(list, at, picks, n) && n <= more
    ensures ListFair(list, at, picks, more)
  {
    hide Passed;
  }

  /** The next one is picked from this list. */
  lemma PickFair(list: seq<CoId>, at: nat, picks: seq<Pick>, n: nat, pick: Pick)
    requires ListFair(list, at, picks, n) && list != [] && Distinct(list)
    requires pick.co == list[NextAt(at, |list|) - 1]
    requires pick.co in pick.ready && forall c :: c in list ==> c in pick.ready && pick.ready[c] == pick.ready[pick.co]
    ensures ListFair(list, NextAt(at, |list|), picks + [pick], n)
  {
    hide Passed;
    forall k | 0 <= k < |list|
      ensures Passed(picks + [pick], list[k]) + Ahead(k, NextAt(at, |list|), |list|, n) <= 2 * n - 2
    {
      PassedNext(picks, pick, list[k]);
      assert list[k] in list && pick.co in list;
    }
  }

  /** One of another priority is picked. */
  lemma OtherFair(list: seq<CoId>, at: nat, picks: seq<Pick>, n: nat, pick: Pick)
    requires ListFair(list, at, picks, n) && pick.co in pick.ready
    requires forall c :: c in list ==> c != pick.co && c in pick.ready && pick.ready[c] != pick.ready[pick.co]
    ensures ListFair(list, at, picks + [pick], n)
  {
    hide Passed;
    forall k | 0 <= k < |list|
      ensures Passed(picks + [pick], list[k]) + Ahead(k, at, |list|, n) <= 2 * n - 2
    {
      PassedNext(picks, pick, list[k]);
      assert list[k] in list;
    }
  }

  // --------------------------------------------- The bound of two rounds is met

  datatype Walk = Walk(list: seq<CoId>, at: nat)

  predicate Walking(w: Walk) {
    w.at <= |w.list| && w.list != []
  }

  function Called(w: Walk): CoId
    requires Walking(w)
  {
    w.list[NextAt(w.at, |w.list|) - 1]
  }

  /** The next one has its turn, leaves, and joins again before anybody else has a turn. */
  function CalledAndBack(w: Walk): Walk
    requires Walking(w)
  {
    var k := NextAt(w.at, |w.list|) - 1;
    var rest, at := w.list[..k] + w.list[k + 1..], LeftAt(k + 1, k);
    Walk(Joined(rest, at, w.list[k]), JoinedAt(at))
  }

  /** The walk after `i` turns of the others, when `stays` has just had its turn. */
  function TwoRounds(stays: CoId, others: seq<CoId>, i: nat): (w: Walk)
    requires i <= 2 * |others|
    ensures Walking(w)
  {
    if i <= |others| then Walk(others[..i] + [stays] + others[i..], i + 1)
    else var j := i - |others|; Walk(others[j..] + [stays] + others[..j], 0)
  }

  /** One co-routine stays ready and each of the others leaves and joins again after each of its turns: then the
      others have two turns each before the first one has its next, for any number of others. */
  lemma UnequalShare(stays: CoId, others: seq<CoId>, i: nat)
    requires i < 2 * |others|
    ensures Called(TwoRounds(stays, others, i)) == others[if i < |others| then i else i - |others|]
    ensures CalledAndBack(TwoRounds(stays, others, i)) == TwoRounds(stays, others, i + 1)
    ensures var last := TwoRounds(stays, others, 2 * |others|);
            && Called(last) == stays
            && Walk(last.list, NextAt(last.at, |last.list|)) == TwoRounds(stays, others, 0)
  {
    if i < |others| {
      FirstRound(stays, others, i);
    } else {
      SecondRound(stays, others, i - |others|);
    }
    assert others[|others|..] == [] && others[..0] == [] && others[..|others|] == others == others[0..];
  }

  lemma FirstRound(stays: CoId, others: seq<CoId>, i: nat)
    requires i < |others|
    ensures Called(TwoRounds(stays, others, i)) == others[i]
    ensures CalledAndBack(TwoRounds(stays, others, i)) == TwoRounds(stays, others, i + 1)
  {
    var list := others[..i] + [stays] + others[i..];
    assert list[..i + 1] + list[i + 2..] == others[..i] + [stays] + others[i + 1..];
    assert others[..i + 1] == others[..i] + [others[i]];
    Regroup(others[..i], [others[i]], [stays]);
    JoinedBefore(others[..i], stays, others[i + 1..], others[i]);
  }

  lemma JoinedBefore(a: seq<CoId>, x: CoId, b: seq<CoId>, c: CoId)
    ensures Joined(a + [x] + b, |a| + 1, c) == a + [c] + [x] + b
  {
  }

  lemma SecondRound(stays: CoId, others: seq<CoId>, j: nat)
    requires j < |others|
    ensures Called(TwoRounds(stays, others, |others| + j)) == others[j]
    ensures CalledAndBack(TwoRounds(stays, others, |others| + j)) == TwoRounds(stays, others, |others| + j + 1)
  {
    var list := others[j..] + [stays] + others[..j];
    assert j == 0 ==> others[..|others|] == others[0..] && list == others[..|others|] + [stays] + others[|others|..];
    assert list[0] == others[j];
    assert list[..0] + list[1..] == others[j + 1..] + [stays] + others[..j];
    assert others[..j + 1] == others[..j] + [others[j]];
    Regroup(others[j + 1..] + [stays], others[..j], [others[j]]);
  }
}
