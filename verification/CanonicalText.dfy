/** The texts that the address printers produce, and why the parsers read them back. */
module CanonicalText {
  import opened Sequences
  import opened Printing
  import opened AddressText
  import opened DottedText

  // ------------------------------------------------------------ Single fields

  function LowerHexChar(d: nat): Byte
    requires d < 16
  {
    if d < 10 then '0' as int + d else 'a' as int + d - 10
  }

  function LowerHexText(ds: seq<nat>): (g: seq<Byte>)
    requires forall i :: 0 <= i < |ds| ==> ds[i] < 16
    ensures IsHex(g) && DigitsOf(g) == ds
  {
    seq(|ds|, i requires 0 <= i < |ds| => LowerHexChar(ds[i]))
  }

  function Nibbles(f: Field): (ds: seq<nat>)
    ensures |ds| == 4 && forall i :: 0 <= i < 4 ==> ds[i] < 16
  {
    [f / 0x1000, f / 0x100 % 16, f / 16 % 16, f % 16]
  }

  /** Section 4.3 of RFC 5952: hexadecimal digits from ten up are small letters. */
  lemma SmallLetters(ds: seq<nat>, i: nat)
    requires (forall k :: 0 <= k < |ds| ==> ds[k] < 16) && i < |ds|
    ensures var c := LowerHexText(ds)[i];
            && (ds[i] < 10 ==> 48 <= c <= 57 && c - 48 == ds[i])
            && (ds[i] >= 10 ==> 97 <= c <= 102 && c - 87 == ds[i])
  {
  }

  /** A field as four digits, and without its leading zeros. */
  function FullHex(f: Field): seq<Byte> {
    LowerHexText(Nibbles(f))
  }

  function ShortHex(f: Field): seq<Byte> {
    var ds := Nibbles(f);
    LowerHexText(ds[(if ds[0] > 0 then 0 else if ds[1] > 0 then 1 else if ds[2] > 0 then 2 else 3)..])
  }

  lemma FourDigits(ds: seq<nat>, base: nat)
    requires |ds| == 4
    ensures Value(ds, base) == ((ds[0] * base + ds[1]) * base + ds[2]) * base + ds[3]
  {
    assert ds[..3][..2] == ds[..2] && ds[..2][..1] == ds[..1] && ds[..1][..0] == [];
    assert Value(ds[..1], base) == ds[0];
    assert Value(ds[..2], base) == ds[0] * base + ds[1];
  }

  lemma NibblesSum(f: Field)
    ensures var ds := Nibbles(f); ((ds[0] * 16 + ds[1]) * 16 + ds[2]) * 16 + ds[3] == f
  {
    assert f / 16 / 16 == f / 0x100 && f / 0x100 / 16 == f / 0x1000;
  }

  lemma FullHexValue(f: Field)
    ensures FullHex(f) != [] && IsGroup(FullHex(f)) && HexValue(FullHex(f)) == f
  {
    hide Nibbles, Value;
    FourDigits(Nibbles(f), 16);
    NibblesSum(f);
  }

  lemma {:induction false} LeadingZero(ds: seq<nat>, base: nat)
    requires ds != [] && ds[0] == 0
    ensures Value(ds[1..], base) == Value(ds, base)
  {
    if |ds| > 1 {
      LeadingZero(AllButLast(ds), base);
      assert AllButLast(ds)[1..] == AllButLast(ds[1..]);
    } else {
      assert ds[..0] == [];
    }
  }

  /** Dropping the leading zeros leaves exactly the hexadecimal numeral of the field. */
  lemma ShortHexDigits(f: Field)
    ensures DigitsOf(ShortHex(f)) == Digits(f, 16) && IsGroup(ShortHex(f)) && ShortHex(f) != []
    ensures HexValue(ShortHex(f)) == f
  {
    var ds := Nibbles(f);
    FullHexValue(f);
    if ds[0] == 0 {
      LeadingZero(ds, 16);
      if ds[1] == 0 {
        LeadingZero(ds[1..], 16);
        assert ds[1..][1..] == ds[2..];
        if ds[2] == 0 {
          LeadingZero(ds[2..], 16);
          assert ds[2..][1..] == ds[3..];
        }
      }
    }
    DigitsUnique(DigitsOf(ShortHex(f)), 16);
  }

  function DecimalText(b: Byte): seq<Byte> {
    Text(Digits(b, 10))
  }

  lemma DecimalTextValue(b: Byte)
    ensures DecimalText(b) != [] && IsPart(DecimalText(b)) && Number(DecimalText(b), 10) == b
    ensures CString(DecimalText(b)) == DecimalText(b)
  {
    hide Digits, Text;
    var ds := Digits(b, 10);
    DigitsValue(b, 10);
    WholeText(ds);
    DigitsOfText(ds);
  }

  lemma DigitsOfText(ds: seq<nat>)
    requires forall i :: 0 <= i < |ds| ==> ds[i] < 10
    ensures IsDecimal(Text(ds)) && DigitsOf(Text(ds)) == ds && |Text(ds)| == |ds|
  {
  }

  // ------------------------------------------------------------- IPv4 text

  function DottedParts(v: seq<Byte>): seq<seq<Byte>> {
    seq(|v|, i requires 0 <= i < |v| => DecimalText(v[i]))
  }

  function Dotted(v: seq<Byte>): seq<Byte>
    requires |v| == 4
  {
    Join(DottedParts(v), DOT)
  }

  lemma DottedRoundTrip(v: seq<Byte>)
    requires |v| == 4
    ensures 0 !in Dotted(v) && Parse4(Dotted(v)) == Parsed(v)
  {
    var gs := DottedParts(v);
    forall i | 0 <= i < 4 ensures gs[i] != [] && IsPart(gs[i]) && Number(gs[i], 10) == v[i] {
      DecimalTextValue(v[i]);
    }
    hide Join, Scan4;
    DottedBytes(gs);
    assert IsDotted(Dotted(v), v, gs);
    Parse4Exact(Dotted(v), v);
  }

  // ------------------------------------------------------------- IPv6 text

  predicate ZeroRun(v: seq<Field>, start: int, length: int) {
    0 <= start && 0 <= length && start + length <= |v| && forall i :: start <= i < start + length ==> v[i] == 0
  }

  /** The zero fields to leave out; a start of -1 and a length of 1 for none. */
  datatype Run = Run(start: int, length: int)

  /** The leftmost of the longest runs of at least two zero fields, if there is one. */
  ghost predicate LeftmostLongest(v: seq<Field>, r: Run) {
    if r.length < 2 then
      r == Run(-1, 1) && forall s, l :: ZeroRun(v, s, l) ==> l < 2
    else
      && ZeroRun(v, r.start, r.length)
      && forall s, l :: ZeroRun(v, s, l) ==> l < r.length || (l == r.length && r.start <= s)
  }

  lemma RunUnique(v: seq<Field>, r: Run, q: Run)
    requires LeftmostLongest(v, r) && LeftmostLongest(v, q)
    ensures r == q
  {
  }

  function ShortTexts(v: seq<Field>): (gs: seq<seq<Byte>>)
    ensures |gs| == |v|
  {
    seq(|v|, i requires 0 <= i < |v| => ShortHex(v[i]))
  }

  /** The text with the fields of the run left out. */
  function WithoutRun(v: seq<Field>, start: nat, length: nat): seq<Byte>
    requires start + length <= |v|
  {
    JoinAny(ShortTexts(v[..start])) + [COLON, COLON] + JoinAny(ShortTexts(v[start + length..]))
  }

  function Canonical(v: seq<Field>, r: Run): seq<Byte>
    requires r.length >= 2 ==> 0 <= r.start <= r.start + r.length <= |v|
  {
    if r.length < 2 then JoinAny(ShortTexts(v)) else WithoutRun(v, r.start, r.length)
  }

  lemma ShortTextsGroups(v: seq<Field>)
    ensures AreGroups(ShortTexts(v)) && Values(ShortTexts(v)) == v
    ensures v != [] ==> ShortTexts(v)[0] != []
  {
    forall i | 0 <= i < |v|
      ensures ShortTexts(v)[i] != [] && IsGroup(ShortTexts(v)[i]) && HexValue(ShortTexts(v)[i]) == v[i]
    {
      ShortHexDigits(v[i]);
    }
  }

  /** Leaving out any run of zero fields is undone by the parser exactly if the run has two fields or
      does not touch an end.  Section 2.2 of RFC 4291 also allows the single field at an end. */
  lemma WithoutRunExact(v: seq<Field>, start: nat, length: nat)
    requires |v| == 8 && ZeroRun(v, start, length) && length >= 1
    ensures 0 !in WithoutRun(v, start, length)
    ensures Parse6(WithoutRun(v, start, length))
         == if length >= 2 || 0 < start < start + length < 8 then Parsed(v) else Rejected
  {
    var a, b := v[..start], v[start + length..];
    ShortTextsGroups(a);
    ShortTextsGroups(b);
    hide ShortTexts, AreGroups, Values, Parse6, ShortHex;
    DoubleColonExact(ShortTexts(a), ShortTexts(b));
    assert a + Zeros(length) + b == v;
  }

  /** What printTo writes is read back, for every address. */
  lemma CanonicalRoundTrip(v: seq<Field>, r: Run)
    requires |v| == 8 && LeftmostLongest(v, r)
    ensures 0 !in Canonical(v, r) && Parse6(Canonical(v, r)) == Parsed(v)
  {
    hide ShortTexts, AreGroups, Values, Parse6, ShortHex, WithoutRun;
    if r.length >= 2 {
      WithoutRunExact(v, r.start, r.length);
    } else {
      ShortTextsGroups(v);
      JoinHasNoZero(ShortTexts(v), COLON);
      assert IsFull(Canonical(v, r), v, ShortTexts(v));
      FullAccepted(Canonical(v, r), v, ShortTexts(v));
    }
  }

  function FullTexts(v: seq<Field>): (gs: seq<seq<Byte>>)
    ensures |gs| == |v|
  {
    seq(|v|, i requires 0 <= i < |v| => FullHex(v[i]))
  }

  /** What toString6 writes is read back. */
  lemma FullRoundTrip(v: seq<Field>)
    requires |v| == 8
    ensures 0 !in JoinAny(FullTexts(v)) && Parse6(JoinAny(FullTexts(v))) == Parsed(v)
  {
    var gs := FullTexts(v);
    forall i | 0 <= i < 8 ensures gs[i] != [] && IsGroup(gs[i]) && HexValue(gs[i]) == v[i] {
      FullHexValue(v[i]);
    }
    hide Join, Parse6, FullHex;
    JoinHasNoZero(gs, COLON);
    assert IsFull(JoinAny(gs), v, gs);
    FullAccepted(JoinAny(gs), v, gs);
  }

  /** The run that is left out cannot be extended: the fields beside it are not zero. */
  lemma RunIsWhole(v: seq<Field>, r: Run)
    requires |v| == 8 && LeftmostLongest(v, r) && r.length >= 2
    ensures r.start > 0 ==> v[r.start - 1] != 0
    ensures r.start + r.length < 8 ==> v[r.start + r.length] != 0
  {
    if r.start > 0 && v[r.start - 1] == 0 {
      assert ZeroRun(v, r.start - 1, r.length + 1);
    }
    if r.start + r.length < 8 && v[r.start + r.length] == 0 {
      assert ZeroRun(v, r.start, r.length + 1);
    }
  }

  /** The decimal text of a byte has at most three digits. */
  lemma DecimalLength(b: Byte)
    ensures |DecimalText(b)| <= 3
  {
    hide Quotient;
    var tens := Quotient(b, 10);
    var hundreds := Quotient(tens, 10);
    assert tens < 26 && hundreds < 3;
    assert |Digits(hundreds, 10)| == 1;
    assert |Digits(tens, 10)| <= 2;
  }

  lemma {:induction false} JoinLength(gs: seq<seq<Byte>>, separator: Byte, most: nat)
    requires gs != [] && forall i :: 0 <= i < |gs| ==> |gs[i]| <= most
    ensures |Join(gs, separator)| < |gs| * (most + 1)
  {
    if |gs| > 1 {
      JoinLength(gs[1..], separator, most);
      assert |gs| * (most + 1) == |gs[1..]| * (most + 1) + most + 1;
    }
  }

  /** A text with a colon is not an IPv4 address. */
  lemma ColonIsNotDotted(text: ZeroFree)
    requires COLON in text
    ensures Parse4(text) == Rejected
  {
    hide Scan4;
    if Parse4(text).Parsed? {
      Parse4Exact(text, Parse4(text).value);
      var gs :| IsDotted(text, Parse4(text).value, gs);
      DottedBytes(gs);
      assert false;
    }
  }

  lemma Colons(gs: seq<seq<Byte>>)
    requires |gs| > 1
    ensures COLON in Join(gs, COLON)
  {
    assert Join(gs, COLON)[|gs[0]|] == COLON;
  }

  lemma CanonicalHasColon(v: seq<Field>, r: Run)
    requires |v| == 8 && LeftmostLongest(v, r)
    ensures COLON in Canonical(v, r) && COLON in JoinAny(FullTexts(v))
  {
    Colons(ShortTexts(v));
    Colons(FullTexts(v));
    if r.length >= 2 {
      assert Canonical(v, r)[|JoinAny(ShortTexts(v[..r.start]))|] == COLON;
    }
  }

  // ---------------------------------------------- The text field by field

  /** What printTo writes for field `k`. */
  function Piece(v: seq<Field>, r: Run, k: nat): seq<Byte>
    requires |v| == 8 && k < 8
  {
    if k < r.start || k >= r.start + r.length then ShortHex(v[k]) + (if k < 7 then [COLON] else [])
    else if k == r.start then (if r.start == 0 then [COLON] else []) + [COLON]
    else []
  }

  function Emitted(v: seq<Field>, r: Run, k: nat): seq<Byte>
    requires |v| == 8 && k <= 8
  {
    if k == 0 then [] else Emitted(v, r, k - 1) + Piece(v, r, k - 1)
  }

  lemma EmittedStep(v: seq<Field>, r: Run, k: nat)
    requires |v| == 8 && k < 8
    ensures Emitted(v, r, k + 1) == Emitted(v, r, k) + Piece(v, r, k)
  {
  }

  /** Groups with a separator behind each. */
  function Trail(gs: seq<seq<Byte>>, separator: Byte): seq<Byte> {
    if gs == [] then [] else Trail(AllButLast(gs), separator) + Last(gs) + [separator]
  }

  lemma RegroupFour(a: seq<Byte>, b: seq<Byte>, c: seq<Byte>, d: seq<Byte>)
    ensures (a + b) + (c + d) == a + (b + c + d)
  {
  }

  lemma {:induction false} TrailFront(gs: seq<seq<Byte>>, separator: Byte)
    requires gs != []
    ensures Trail(gs, separator) == gs[0] + [separator] + Trail(gs[1..], separator)
  {
    if |gs| == 1 {
      assert Trail(AllButLast(gs), separator) == [];
    } else {
      TrailFront(AllButLast(gs), separator);
      FirstAndLast(gs);
      var front, rest := gs[0] + [separator], Trail(AllButLast(gs[1..]), separator);
      Regroup(front, rest, Last(gs));
      Regroup(front, rest + Last(gs), [separator]);
    }
  }

  lemma FirstAndLast(gs: seq<seq<Byte>>)
    requires |gs| > 1
    ensures AllButLast(gs) != [] && AllButLast(gs)[0] == gs[0] && AllButLast(gs)[1..] == AllButLast(gs[1..])
    ensures Last(gs[1..]) == Last(gs)
  {
  }

  lemma OnlyGroup(gs: seq<seq<Byte>>, separator: Byte)
    requires |gs| == 1
    ensures Trail(AllButLast(gs), separator) == [] && Join(gs, separator) == [] + Last(gs)
  {
  }

  lemma {:induction false} JoinTrail(gs: seq<seq<Byte>>, separator: Byte)
    requires gs != []
    ensures Join(gs, separator) == Trail(AllButLast(gs), separator) + Last(gs)
  {
    if |gs| == 1 {
      OnlyGroup(gs, separator);
    } else {
      hide Trail, AllButLast, Last;
      JoinTrail(gs[1..], separator);
      FirstAndLast(gs);
      TrailFront(AllButLast(gs), separator);
      RegroupFour(gs[0], [separator], Trail(AllButLast(gs[1..]), separator), Last(gs));
    }
  }

  lemma LastShortText(v: seq<Field>, from: nat, to: nat)
    requires from < to <= |v|
    ensures AllButLast(ShortTexts(v[from..to])) == ShortTexts(v[from..to - 1])
    ensures Last(ShortTexts(v[from..to])) == ShortHex(v[to - 1])
  {
    hide ShortHex;
    var a, b := AllButLast(ShortTexts(v[from..to])), ShortTexts(v[from..to - 1]);
    assert |a| == |b|;
    forall i | 0 <= i < |a| ensures a[i] == b[i] {
      assert a[i] == ShortHex(v[from + i]);
    }
  }

  /** One field outside the run. */
  lemma EmittedField(v: seq<Field>, r: Run, k: nat)
    requires |v| == 8 && k < 8 && (k < r.start || k >= r.start + r.length)
    ensures Emitted(v, r, k + 1) == Emitted(v, r, k) + (ShortHex(v[k]) + (if k < 7 then [COLON] else []))
  {
    hide ShortHex;
  }

  /** Fields outside the run are written one after the other. */
  lemma {:induction false} EmittedOutside(v: seq<Field>, r: Run, from: nat, to: nat)
    requires |v| == 8 && from <= to <= 7
    requires to <= r.start || from >= r.start + r.length
    ensures Emitted(v, r, to) == Emitted(v, r, from) + Trail(ShortTexts(v[from..to]), COLON)
  {
    if from == to {
      assert ShortTexts(v[from..to]) == [];
    } else {
      hide ShortHex, ShortTexts, Emitted;
      var before := ShortTexts(v[from..to - 1]);
      EmittedOutside(v, r, from, to - 1);
      EmittedField(v, r, to - 1);
      LastShortText(v, from, to);
      RegroupFour(Emitted(v, r, from), Trail(before, COLON), ShortHex(v[to - 1]), [COLON]);
    }
  }

  lemma {:induction false} EmittedInside(v: seq<Field>, r: Run, to: nat)
    requires |v| == 8 && 0 <= r.start < to <= r.start + r.length && to <= 8
    ensures Emitted(v, r, to) == Emitted(v, r, r.start + 1)
  {
    if to > r.start + 1 {
      EmittedInside(v, r, to - 1);
      assert Piece(v, r, to - 1) == [];
    }
  }

  /** The fields up to the last one, and the last one without a colon. */
  lemma EmittedEnd(v: seq<Field>, r: Run, from: nat)
    requires |v| == 8 && r.start + r.length <= from <= 7
    ensures Emitted(v, r, 8) == Emitted(v, r, from) + JoinAny(ShortTexts(v[from..]))
  {
    hide ShortHex, Trail, ShortTexts, Emitted;
    var gs := ShortTexts(v[from..]);
    EmittedOutside(v, r, from, 7);
    assert v[from..] == v[from..8];
    LastShortText(v, from, 8);
    JoinTrail(gs, COLON);
    EmittedField(v, r, 7);
    RegroupFour(Emitted(v, r, from), Trail(ShortTexts(v[from..7]), COLON), ShortHex(v[7]), []);
    assert Trail(ShortTexts(v[from..7]), COLON) + ShortHex(v[7]) + [] == Join(gs, COLON);
  }

  /** All pieces together are the canonical text. */
  lemma EmittedCanonical(v: seq<Field>, r: Run)
    requires |v| == 8 && LeftmostLongest(v, r)
    ensures Emitted(v, r, 8) == Canonical(v, r)
  {
    hide ShortHex, ShortTexts, Trail, Join;
    if r.length < 2 {
      EmittedEnd(v, r, 0);
      assert v[0..] == v && Emitted(v, r, 0) == [];
    } else {
      var e := r.start + r.length;
      EmittedLeft(v, r);
      EmittedInside(v, r, e);
      if e < 8 {
        EmittedEnd(v, r, e);
      } else {
        assert ShortTexts(v[e..]) == [];
      }
    }
  }

  lemma EmittedLeft(v: seq<Field>, r: Run)
    requires |v| == 8 && 0 <= r.start < 7 && r.length >= 2
    ensures Emitted(v, r, r.start + 1) == JoinAny(ShortTexts(v[..r.start])) + [COLON, COLON]
  {
    hide ShortHex, ShortTexts, Emitted, Join, Trail;
    var a := ShortTexts(v[..r.start]);
    assert v[0..r.start] == v[..r.start];
    EmittedStep(v, r, r.start);
    EmittedOutside(v, r, 0, r.start);
    EmittedNothing(v, r);
    if r.start > 0 {
      TrailJoin(a, COLON);
      Regroup(Join(a, COLON), [COLON], [COLON]);
    } else {
      assert Trail(a, COLON) == [] by { NoTrail(a, COLON); }
    }
  }

  lemma EmittedNothing(v: seq<Field>, r: Run)
    requires |v| == 8
    ensures Emitted(v, r, 0) == []
  {
  }

  lemma NoTrail(gs: seq<seq<Byte>>, separator: Byte)
    requires gs == []
    ensures Trail(gs, separator) == []
  {
  }

  lemma TrailJoin(gs: seq<seq<Byte>>, separator: Byte)
    requires gs != []
    ensures Trail(gs, separator) == Join(gs, separator) + [separator]
  {
    JoinTrail(gs, separator);
  }
}
