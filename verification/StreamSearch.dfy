/** Searching a stream for the first of several strings, one character at a time and without a
    failure table. */
module StreamSearch {
  import opened Sequences

  type Char = Byte

  /** A string that is searched for, and how much of it the latest characters match. */
  datatype MultiTarget = MultiTarget(str: seq<Char>, index: nat)

  predicate EndsWith(s: seq<Char>, p: seq<Char>) {
    |p| <= |s| && s[|s| - |p|..] == p
  }

  /** `k` is the length of the longest incomplete prefix of `str` that ends `s`. */
  ghost predicate IsIndex(str: seq<Char>, s: seq<Char>, k: nat) {
    && k < |str|
    && EndsWith(s, str[..k])
    && forall j :: k < j < |str| ==> !EndsWith(s, str[..j])
  }

  /** One character more. */
  lemma EndsWithNext(s: seq<Char>, c: Char, str: seq<Char>, k: nat)
    requires k < |str|
    ensures EndsWith(s + [c], str[..k + 1]) <==> c == str[k] && EndsWith(s, str[..k])
    ensures EndsWith(s + [c], str[..0])
  {
    var t := s + [c];
    if |str[..k + 1]| <= |t| {
      var a := t[|t| - (k + 1)..];
      assert a == s[|s| - k..] + [c];
      assert str[..k + 1] == str[..k] + [str[k]];
      if a == str[..k + 1] {
        assert a[k] == str[k];
        assert s[|s| - k..] == a[..k] == str[..k];
      }
    }
  }

  /** If `s` ends with the first `q` characters of `str`, a shorter prefix ends `s` exactly when it
      ends those. */
  lemma ShorterPrefix(s: seq<Char>, str: seq<Char>, q: nat, i: nat)
    requires i <= q <= |str| && EndsWith(s, str[..q])
    ensures EndsWith(s, str[..i]) <==> forall j :: 0 <= j < i ==> str[j] == str[j + (q - i)]
  {
    var tail := s[|s| - q..];
    assert s[|s| - i..] == tail[q - i..] == str[..q][q - i..];
    var a, b := str[..q][q - i..], str[..i];
    assert forall j :: 0 <= j < i ==> a[j] == str[j + (q - i)] && b[j] == str[j];
    if a == b {
      forall j | 0 <= j < i ensures str[j] == str[j + (q - i)] {
        assert a[j] == b[j];
      }
    }
  }

  /** The body of the search loop for one target: the index is carried over the character `c`. */
  method Advance(t: MultiTarget, c: Char, ghost s: seq<Char>) returns (r: MultiTarget, complete: bool)
    requires IsIndex(t.str, s, t.index)
    ensures r.str == t.str
    ensures complete <==> EndsWith(s + [c], t.str)
    ensures !complete ==> IsIndex(t.str, s + [c], r.index)
  {
    var str, index := t.str, t.index;
    NoLongerPrefix(str, s, index, c);
    EndsWithNext(s, c, str, index);
    assert str[..|str|] == str;
    if c == str[index] {
      index := index + 1;
      return t.(index := index), index == |str|;
    }
    if index == 0 {
      return t, false;
    }
    index := WalkBack(str, index, c, s);
    return t.(index := index), false;
  }

  lemma AtTheStart(str: seq<Char>)
    ensures EndsWith([], str) <==> str == []
    ensures str != [] ==> IsIndex(str, [], 0)
  {
  }

  lemma NoLongerPrefix(str: seq<Char>, s: seq<Char>, index: nat, c: Char)
    requires IsIndex(str, s, index)
    ensures forall k :: index + 1 < k <= |str| ==> !EndsWith(s + [c], str[..k])
    ensures EndsWith(s + [c], str[..0])
  {
    forall k | index + 1 < k <= |str| ensures !EndsWith(s + [c], str[..k]) {
      EndsWithNext(s, c, str, k - 1);
    }
  }

  /** The comparison of the first `index` characters with those `diff` further on. */
  method Overlaps(str: seq<Char>, index: nat, diff: nat) returns (same: bool)
    requires index + diff <= |str|
    ensures same <==> forall j :: 0 <= j < index ==> str[j] == str[j + diff]
  {
    var i := 0;
    while i < index && str[i] == str[i + diff]
      invariant i <= index
      invariant forall j :: 0 <= j < i ==> str[j] == str[j + diff]
    {
      i := i + 1;
    }
    same := i == index;
  }

  /** The walk back after a mismatch: the longest shorter prefix that the new character completes. */
  method WalkBack(str: seq<Char>, origIndex: nat, c: Char, ghost s: seq<Char>) returns (index: nat)
    requires 0 < origIndex < |str| && EndsWith(s, str[..origIndex])
    ensures index <= origIndex && EndsWith(s + [c], str[..index])
    ensures forall k :: index < k <= origIndex ==> !EndsWith(s + [c], str[..k])
  {
    hide EndsWith;
    index := origIndex;
    while true
      invariant 0 < index <= origIndex
      invariant forall k :: index < k <= origIndex ==> !EndsWith(s + [c], str[..k])
      decreases index
    {
      EndsWithNext(s, c, str, index - 1);
      ShorterPrefix(s, str, origIndex, index - 1);
      index := index - 1;
      if c == str[index] {
        if index == 0 {
          index := index + 1;
          break;
        }
        var same := Overlaps(str, index, origIndex - index);
        if same {
          index := index + 1;
          break;
        }
      }
      if index == 0 {
        break;
      }
    }
  }

  ghost predicate NoneEnds(ts: seq<MultiTarget>, s: seq<Char>) {
    forall j :: 0 <= j < |ts| ==> !EndsWith(s, ts[j].str)
  }

  /** Each index is the longest incomplete prefix of its target that ends `s`. */
  ghost predicate Indexed(ts: seq<MultiTarget>, original: seq<MultiTarget>, s: seq<Char>) {
    && |ts| == |original|
    && forall j :: 0 <= j < |ts| ==> ts[j].str == original[j].str && IsIndex(ts[j].str, s, ts[j].index)
  }

  /** `target` ends at position `n` of the text, and no terminator ends before that. */
  ghost predicate FoundAt(text: seq<Char>, target: seq<Char>, terminator: Option<seq<Char>>, n: nat) {
    && n <= |text|
    && EndsWith(text[..n], target)
    && (terminator.Some? ==> forall m :: 0 <= m < n ==> !EndsWith(text[..m], terminator.value))
  }

  class Stream {
    /** What still arrives before a read times out. */
    var input: seq<Char>

    constructor (input: seq<Char>)
      ensures this.input == input
    {
      this.input := input;
    }

    /** timedRead: the next character, or -1 on timeout. */
    method TimedRead() returns (c: int)
      modifies this
      ensures if old(input) == [] then c == -1 && input == []
              else c == old(input)[0] && input == old(input)[1..]
    {
      if input == [] {
        c := -1;
      } else {
        c := input[0];
        input := input[1..];
      }
    }

    /** timedPeek: the next character, which stays in the stream, or -1 on timeout. */
    method TimedPeek() returns (c: int)
      ensures c == if input == [] then -1 else input[0]
    {
      c := if input == [] then -1 else input[0];
    }

    /** read, right after a peek that found a character. */
    method Read()
      requires input != []
      modifies this
      ensures input == old(input)[1..]
    {
      input := input[1..];
    }

    /** The loop over the targets for one character: the first target that it completes, or -1. */
    static method Feed(targets: array<MultiTarget>, c: Char, ghost s: seq<Char>) returns (r: int)
      requires Indexed(targets[..], targets[..], s)
      modifies targets
      ensures -1 <= r < targets.Length
      ensures if r == -1 then Indexed(targets[..], old(targets[..]), s + [c]) && NoneEnds(old(targets[..]), s + [c])
              else NoneEnds(old(targets[..r]), s + [c]) && EndsWith(s + [c], old(targets[r]).str)
    {
      r := 0;
      while r < targets.Length
        invariant 0 <= r <= targets.Length
        invariant NoneEnds(old(targets[..r]), s + [c])
        invariant forall j :: r <= j < targets.Length ==> targets[j] == old(targets[j])
        invariant Indexed(targets[..r], old(targets[..r]), s + [c])
      {
        var t, complete := Advance(targets[r], c, s);
        targets[r] := t;
        if complete {
          return;
        }
        r := r + 1;
      }
      r := -1;
    }

    /** Read until one of the targets has come by.  The search stops at the earliest position of the
        stream where any target ends, returns the first target that ends there, and returns -1 only
        if none ends anywhere before the timeout. */
    method FindMulti(targets: array<MultiTarget>) returns (r: int)
      requires forall j :: 0 <= j < targets.Length ==> targets[j].index == 0
      modifies this, targets
      ensures -1 <= r < targets.Length
      ensures var n := |old(input)| - |input|;
              && 0 <= n && input == old(input)[n..]
              && (forall m :: 0 <= m < n ==> NoneEnds(old(targets[..]), old(input)[..m]))
              && if r == -1 then input == [] && NoneEnds(old(targets[..]), old(input)[..n])
                 else NoneEnds(old(targets[..r]), old(input)[..n]) && EndsWith(old(input)[..n], old(targets[r]).str)
    {
      hide EndsWith, IsIndex;
      ghost var all, ts := input, targets[..];
      assert all[..0] == [] && all[0..] == all;
      r := 0;
      while r < targets.Length
        modifies {}
        invariant 0 <= r <= targets.Length
        invariant NoneEnds(ts[..r], all[..0]) && Indexed(ts[..r], ts[..r], all[..0])
      {
        AtTheStart(targets[r].str);
        if targets[r].str == [] {
          return;
        }
        r := r + 1;
      }
      assert ts[..r] == ts;
      ghost var n := 0;
      while true
        invariant 0 <= n <= |all| && input == all[n..]
        invariant forall m :: 0 <= m <= n ==> NoneEnds(ts, all[..m])
        invariant Indexed(targets[..], ts, all[..n])
        decreases |input|
      {
        var c := TimedRead();
        if c < 0 {
          return -1;
        }
        r := Feed(targets, c, all[..n]);
        assert all[..n] + [c] == all[..n + 1];
        n := n + 1;
        if r >= 0 {
          return;
        }
      }
    }

    /** True exactly if the target ends somewhere in the stream with no terminator ending earlier;
        the stream is then left just behind the first such place. */
    method FindUntil(target: seq<Char>, terminator: Option<seq<Char>>) returns (found: bool)
      modifies this
      ensures found <==> exists n :: FoundAt(old(input), target, terminator, n)
      ensures found ==> var n := |old(input)| - |input|;
              && 0 <= n && input == old(input)[n..] && FoundAt(old(input), target, terminator, n)
              && forall m :: 0 <= m < n ==> !EndsWith(old(input)[..m], target)
    {
      hide EndsWith;
      var t: array<MultiTarget>;
      if terminator.None? {
        t := new MultiTarget[][MultiTarget(target, 0)];
      } else {
        t := new MultiTarget[][MultiTarget(target, 0), MultiTarget(terminator.value, 0)];
      }
      ghost var all, ts := input, t[..];
      var r := FindMulti(t);
      ghost var n := |all| - |input|;
      assert ts[0].str == target;
      if r == 0 {
        assert FoundAt(all, target, terminator, n) by {
          forall m | 0 <= m < n && terminator.Some? ensures !EndsWith(all[..m], terminator.value) {
            assert NoneEnds(ts, all[..m]) && ts[1].str == terminator.value;
          }
        }
      } else {
        forall m | 0 <= m <= |all| ensures !FoundAt(all, target, terminator, m) {
          if m < n {
            assert NoneEnds(ts, all[..m]);
          } else if m == n {
            assert r > 0 ==> ts[..r][0].str == target;
          } else {
            assert r == 1 && EndsWith(all[..n], ts[1].str);
          }
        }
      }
      found := r == 0;
    }
  }
}
