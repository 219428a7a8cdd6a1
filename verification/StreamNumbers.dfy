/** Reading integers from a stream. */
module StreamNumbers {
  import opened Sequences
  import opened Printing
  import opened StreamSearch

  datatype Lookahead = SkipAll | SkipNone | SkipWhitespace

  const MINUS: Byte := '-' as int

  predicate IsDigit(c: int) {
    '0' as int <= c <= '9' as int
  }

  /** A character that a number may start with. */
  predicate Starts(c: Byte, detectDecimal: bool) {
    c == MINUS || IsDigit(c) || (detectDecimal && c == '.' as int)
  }

  /** A character that is thrown away in front of a number. */
  predicate Skips(lookahead: Lookahead, c: Byte) {
    match lookahead
    case SkipAll => true
    case SkipNone => false
    case SkipWhitespace => c == ' ' as int || c == '\t' as int || c == '\r' as int || c == '\n' as int
  }

  /** How many characters are thrown away in front of a number. */
  function Skipped(text: seq<Byte>, lookahead: Lookahead, detectDecimal: bool): (k: nat)
    ensures k <= |text|
    ensures forall i :: 0 <= i < k ==> !Starts(text[i], detectDecimal) && Skips(lookahead, text[i])
    ensures k < |text| ==> Starts(text[k], detectDecimal) || !Skips(lookahead, text[k])
  {
    if text == [] || Starts(text[0], detectDecimal) || !Skips(lookahead, text[0]) then 0
    else 1 + Skipped(text[1..], lookahead, detectDecimal)
  }

  /** Whether the loop of parseInt goes on with what it peeked: the result, -1 on timeout, is compared with
      the character to ignore as a character. */
  predicate GoesOn(c: int, ignore: Byte) {
    IsDigit(c) || c % 0x100 == ignore
  }

  /** After a timeout the loop goes on, and so never ends, for exactly one character to ignore. */
  lemma GoesOnAfterTimeout(ignore: Byte)
    ensures GoesOn(-1, ignore) <==> ignore == 0xFF
  {
  }

  lemma GoesOnByte(c: int, ignore: Byte)
    requires -1 <= c < 0x100 && (c >= 0 || ignore != 0xFF)
    ensures GoesOn(c, ignore) <==> IsDigit(c) || c == ignore
    ensures c < 0 ==> !GoesOn(c, ignore)
  {
  }

  /** How far a number goes on: digits, and the character to ignore. */
  function Tail(text: seq<Byte>, ignore: Byte): (k: nat)
    ensures k <= |text|
    ensures forall i :: 0 <= i < k ==> IsDigit(text[i]) || text[i] == ignore
    ensures k < |text| ==> !IsDigit(text[k]) && text[k] != ignore
  {
    if text == [] || !(IsDigit(text[0]) || text[0] == ignore) then 0 else 1 + Tail(text[1..], ignore)
  }

  /** The digits that count. */
  function DigitsIn(text: seq<Byte>, ignore: Byte): seq<nat> {
    if text == [] then []
    else
      var c := text[|text| - 1];
      DigitsIn(text[..|text| - 1], ignore) + (if c != ignore && IsDigit(c) then [c - '0' as int] else [])
  }

  /** The number in `text`, which its first character may make negative. */
  function SignedNumber(text: seq<Byte>, ignore: Byte): int
    requires text != []
  {
    var v: int := Value(DigitsIn(text, ignore), 10);
    if text[0] == MINUS && ignore != MINUS then -v else v
  }

  /** 32-bit arithmetic: only the value modulo 2^32 counts. */
  lemma WrappedUnique(a: int, b: int)
    requires (a - b) % TWO_TO_32 == 0
    ensures Wrapped(a) == Wrapped(b)
  {
  }

  lemma WrappedStep(v: int, d: int)
    ensures Wrapped(Wrapped(v) * 10 + d) == Wrapped(v * 10 + d)
    ensures Wrapped(-Wrapped(v)) == Wrapped(-v)
  {
    var k := (Wrapped(v) - v) / TWO_TO_32;
    assert Wrapped(v) - v == k * TWO_TO_32;
    WrappedUnique(Wrapped(v) * 10 + d, v * 10 + d);
    WrappedUnique(-Wrapped(v), -v);
  }

  /** One character more. */
  lemma DigitsInStep(text: seq<Byte>, c: Byte, ignore: Byte)
    ensures Value(DigitsIn(text + [c], ignore), 10)
         == if c != ignore && IsDigit(c) then Value(DigitsIn(text, ignore), 10) * 10 + (c - '0' as int)
            else Value(DigitsIn(text, ignore), 10)
  {
    DigitsInAppend(text, c, ignore);
    var ds := DigitsIn(text, ignore);
    assert ds + [] == ds;
    if c != ignore && IsDigit(c) {
      assert (ds + [c - '0' as int])[..|ds|] == ds;
    }
  }

  /** What the loop has read so far. */
  predicate ReadSoFar(text: seq<Byte>, ignore: Byte, value: int, isNegative: bool) {
    && value == Wrapped(Value(DigitsIn(text, ignore), 10))
    && (isNegative <==> text != [] && text[0] == MINUS && ignore != MINUS)
  }

  lemma NothingRead(ignore: Byte)
    ensures ReadSoFar([], ignore, 0, false)
  {
  }

  lemma ReadOneMore(text: seq<Byte>, c: Byte, ignore: Byte, value: int, isNegative: bool)
    requires ReadSoFar(text, ignore, value, isNegative)
    requires text == [] || IsDigit(c) || c == ignore
    ensures ReadSoFar(text + [c], ignore,
                      if c != ignore && IsDigit(c) then Wrapped(value * 10 + (c - '0' as int)) else value,
                      isNegative || (c != ignore && c == MINUS))
  {
    hide Wrapped, Value, DigitsIn;
    DigitsInStep(text, c, ignore);
    WrappedStep(Value(DigitsIn(text, ignore), 10), c - '0' as int);
  }

  lemma ReadAll(text: seq<Byte>, ignore: Byte, value: int, isNegative: bool)
    requires text != [] && ReadSoFar(text, ignore, value, isNegative)
    ensures (if isNegative then Wrapped(-value) else value) == Wrapped(SignedNumber(text, ignore))
  {
    hide Wrapped, Value, DigitsIn;
    WrappedStep(Value(DigitsIn(text, ignore), 10), 0);
  }

  /** What is discarded, character by character: with no lookahead nothing, with whitespace only spaces, tabs, returns and
      newlines, and never a digit, a minus sign or, where one counts, a decimal point.  What is left begins with a
      character that must stay. */
  ghost predicate DiscardedTo(before: seq<Byte>, after: seq<Byte>, lookahead: Lookahead, detectDecimal: bool) {
    && |after| <= |before|
    && var k := |before| - |after|;
       && after == before[k..]
       && (forall i :: 0 <= i < k ==> Discards(before[i], lookahead, detectDecimal))
       && (after != [] ==> !Discards(after[0], lookahead, detectDecimal))
  }

  predicate Discards(c: Byte, lookahead: Lookahead, detectDecimal: bool) {
    && lookahead != SkipNone
    && (lookahead == SkipWhitespace ==> c in {32, 9, 13, 10})
    && c != 45 && !(48 <= c <= 57) && !(detectDecimal && c == 46)
  }

  lemma WhatIsDiscarded(text: seq<Byte>, lookahead: Lookahead, detectDecimal: bool)
    ensures DiscardedTo(text, text[Skipped(text, lookahead, detectDecimal)..], lookahead, detectDecimal)
  {
    hide Discards, Starts, Skips;
    var k := Skipped(text, lookahead, detectDecimal);
    forall i | 0 <= i <= k && i < |text| ensures Discards(text[i], lookahead, detectDecimal) <==> i < k {
      OneDiscarded(text[i], lookahead, detectDecimal);
    }
  }

  lemma OneDiscarded(c: Byte, lookahead: Lookahead, detectDecimal: bool)
    ensures Discards(c, lookahead, detectDecimal) <==> !Starts(c, detectDecimal) && Skips(lookahead, c)
  {
  }

  /** peekNextDigit: throw away what may be skipped, and report the character a number starts with. */
  method PeekNextDigit(s: Stream, lookahead: Lookahead, detectDecimal: bool) returns (c: int)
    modifies s
    ensures s.input == old(s.input)[Skipped(old(s.input), lookahead, detectDecimal)..]
    ensures c == if s.input != [] && Starts(s.input[0], detectDecimal) then s.input[0] else -1
    ensures DiscardedTo(old(s.input), s.input, lookahead, detectDecimal)
  {
    hide DiscardedTo, Discards;
    ghost var text, k := s.input, 0;
    WhatIsDiscarded(text, lookahead, detectDecimal);
    assert text[0..] == text;
    while true
      invariant k <= |text| && s.input == text[k..]
      invariant Skipped(text, lookahead, detectDecimal) == k + Skipped(text[k..], lookahead, detectDecimal)
      decreases |s.input|
    {
      c := s.TimedPeek();
      if c < 0 || Starts(c, detectDecimal) {
        return;
      }
      if !Skips(lookahead, c) {
        return -1;
      }
      s.Read();
      assert text[k..][1..] == text[k + 1..];
      k := k + 1;
    }
  }

  /** The call returns: the loop does not go on after the stream has timed out. */
  predicate Returns(input: seq<Byte>, lookahead: Lookahead, ignore: Byte) {
    var text := input[Skipped(input, lookahead, false)..];
    text == [] || !Starts(text[0], false) || NumberEnds(text, ignore)
  }

  predicate NumberEnds(text: seq<Byte>, ignore: Byte)
    requires text != []
  {
    ignore != 0xFF || 1 + Tail(text[1..], ignore) < |text|
  }

  /** parseInt: the first number in the stream, in 32-bit arithmetic; zero if there is none.  The stream
      is left at the first character that does not belong to the number. */
  method ParseInt(s: Stream, lookahead: Lookahead, ignore: Byte) returns (value: int)
    requires Returns(s.input, lookahead, ignore)
    modifies s
    ensures var text := old(s.input)[Skipped(old(s.input), lookahead, false)..];
            if text == [] || !Starts(text[0], false) then value == 0 && s.input == text
            else var k := 1 + Tail(text[1..], ignore);
                 s.input == text[k..] && value == Wrapped(SignedNumber(text[..k], ignore))
  {
    value := 0;
    var c := PeekNextDigit(s, lookahead, false);
    if c >= 0 {
      value := ReadNumber(s, c, ignore);
    }
  }

  lemma TailStep(text: seq<Byte>, k: nat, ignore: Byte)
    requires k <= |text|
    ensures k == |text| ==> Tail(text[k..], ignore) == 0
    ensures k < |text| ==>
      text[k..][0] == text[k] && text[k..][1..] == text[k + 1..] && text[..k] + [text[k]] == text[..k + 1]
    ensures k < |text| ==>
      Tail(text[k..], ignore) == if IsDigit(text[k]) || text[k] == ignore then 1 + Tail(text[k + 1..], ignore) else 0
  {
    if k < |text| {
      assert text[k..][1..] == text[k + 1..];
    }
  }

  /** What the loop does with one character. */
  method Accumulate(c: Byte, ignore: Byte, value: int, isNegative: bool) returns (v: int, negative: bool)
    ensures v == if c != ignore && IsDigit(c) then Wrapped(value * 10 + (c - '0' as int)) else value
    ensures negative == (isNegative || (c != ignore && c == MINUS))
  {
    v, negative := value, isNegative;
    if c == ignore {
    } else if c == MINUS {
      negative := true;
    } else if IsDigit(c) {
      v := Wrapped(value * 10 + (c - '0' as int));
    }
  }

  /** The loop of parseInt, from the character `first` that has been peeked. */
  method ReadNumber(s: Stream, first: int, ignore: Byte) returns (value: int)
    requires s.input != [] && first == s.input[0] && NumberEnds(s.input, ignore)
    modifies s
    ensures var text := old(s.input);
            var k := 1 + Tail(text[1..], ignore);
            s.input == text[k..] && value == Wrapped(SignedNumber(text[..k], ignore))
  {
    hide ReadSoFar, Wrapped, Value, DigitsIn, SignedNumber, Tail, IsDigit, GoesOn, Starts;
    ghost var text, k := s.input, 0;
    var isNegative, c := false, first;
    value := 0;
    assert text[0..] == text && text[..0] == [];
    NothingRead(ignore);
    while true
      invariant k < |text| && s.input == text[k..] && c == text[k]
      invariant k > 0 ==> IsDigit(c) || c == ignore
      invariant k > 0 ==> 1 + Tail(text[1..], ignore) == k + Tail(text[k..], ignore)
      invariant ReadSoFar(text[..k], ignore, value, isNegative)
      decreases |text| - k
    {
      ReadOneMore(text[..k], text[k], ignore, value, isNegative);
      TailStep(text, k, ignore);
      value, isNegative := Accumulate(c, ignore, value, isNegative);
      s.Read();
      k := k + 1;
      assert 1 + Tail(text[1..], ignore) == k + Tail(text[k..], ignore);
      TailStep(text, k, ignore);
      c := s.TimedPeek();
      assert c < 0 ==> k == |text| && ignore != 0xFF;
      GoesOnByte(c, ignore);
      if !GoesOn(c, ignore) {
        break;
      }
    }
    ReadAll(text[..k], ignore, value, isNegative);
    if isNegative {
      value := Wrapped(-value);
    }
  }

  // -------------------------------------------------------------- Round trip

  lemma {:induction false} TailOfDigits(ds: seq<nat>, rest: seq<Byte>, ignore: Byte)
    requires forall i :: 0 <= i < |ds| ==> ds[i] < 10
    requires rest == [] || !(IsDigit(rest[0]) || rest[0] == ignore)
    ensures Tail(Text(ds) + rest, ignore) == |ds|
  {
    if ds == [] {
      assert Text(ds) + rest == rest;
    } else {
      assert (Text(ds) + rest)[1..] == Text(ds[1..]) + rest;
      TailOfDigits(ds[1..], rest, ignore);
    }
  }

  lemma {:induction false} DigitsInText(front: seq<Byte>, ds: seq<nat>, ignore: Byte)
    requires !IsDigit(ignore) && forall i :: 0 <= i < |ds| ==> ds[i] < 10
    ensures DigitsIn(front + Text(ds), ignore) == DigitsIn(front, ignore) + ds
  {
    if ds == [] {
      assert front + Text(ds) == front;
    } else {
      hide DigitsIn, Text, DigitByte;
      var init, last := ds[..|ds| - 1], ds[|ds| - 1];
      DigitsInText(front, init, ignore);
      TextEnd(front, ds);
      DigitRead(last);
      DigitsInAppend(front + Text(init), DigitByte(last), ignore);
      Regroup(DigitsIn(front, ignore), init, [last]);
      assert ds == init + [last];
    }
  }

  lemma DigitRead(d: nat)
    requires d < 10
    ensures IsDigit(DigitByte(d)) && DigitByte(d) - '0' as int == d
  {
  }

  lemma TextEnd(front: seq<Byte>, ds: seq<nat>)
    requires ds != []
    ensures front + Text(ds) == front + Text(ds[..|ds| - 1]) + [DigitByte(ds[|ds| - 1])]
  {
  }

  lemma DigitsInAppend(text: seq<Byte>, c: Byte, ignore: Byte)
    ensures DigitsIn(text + [c], ignore)
         == DigitsIn(text, ignore) + (if c != ignore && IsDigit(c) then [c - '0' as int] else [])
  {
    assert (text + [c])[..|text|] == text;
  }

  lemma DigitsOfNumber(m: nat)
    ensures var ds := Digits(m, 10);
            && ds != [] && (forall i :: 0 <= i < |ds| ==> ds[i] < 10) && Value(ds, 10) == m
            && |Text(ds)| == |ds| && IsDigit(Text(ds)[0]) && Text(ds)[0] != MINUS && Text(ds)[1..] == Text(ds[1..])
  {
    DigitsValue(m, 10);
  }

  lemma StartsAtOnce(text: seq<Byte>, lookahead: Lookahead)
    requires text != [] && Starts(text[0], false)
    ensures Skipped(text, lookahead, false) == 0
  {
  }

  lemma SmallIsWrapped(n: int)
    requires -0x8000_0000 <= n < 0x8000_0000
    ensures Wrapped(n) == n
  {
  }

  lemma SignAlone(ignore: Byte)
    requires ignore != MINUS
    ensures DigitsIn([MINUS], ignore) == [] && DigitsIn([], ignore) == []
  {
    assert [MINUS][..0] == [];
  }

  /** What print writes for a 32-bit number is read back as that number, whatever follows it, as long as
      that does not go on like a number. */
  lemma PrintedNumber(n: int, rest: seq<Byte>, lookahead: Lookahead, ignore: Byte)
    requires -0x8000_0000 <= n < 0x8000_0000
    requires !IsDigit(ignore) && ignore != MINUS && (rest == [] || !(IsDigit(rest[0]) || rest[0] == ignore))
    ensures var text := Signed(n) + rest;
            && Skipped(text, lookahead, false) == 0 && Starts(text[0], false)
            && 1 + Tail(text[1..], ignore) == |Signed(n)|
            && text[..|Signed(n)|] == Signed(n)
            && Wrapped(SignedNumber(Signed(n), ignore)) == n
  {
    hide Digits, Text, Value, DigitsIn, Tail, Skipped, Wrapped;
    var m := if n < 0 then -n else n;
    var ds := Digits(m, 10);
    DigitsOfNumber(m);
    SignAlone(ignore);
    SmallIsWrapped(n);
    if n < 0 {
      assert Signed(n) == [MINUS] + Text(ds);
      assert (Signed(n) + rest)[1..] == Text(ds) + rest;
      TailOfDigits(ds, rest, ignore);
      DigitsInText([MINUS], ds, ignore);
      assert [] + ds == ds;
    } else {
      assert [] + Text(ds) == Text(ds) == Signed(n);
      assert (Signed(n) + rest)[1..] == Text(ds[1..]) + rest;
      TailOfDigits(ds[1..], rest, ignore);
      DigitsInText([], ds, ignore);
      assert [] + ds == ds;
    }
    StartsAtOnce(Signed(n) + rest, lookahead);
  }
}
