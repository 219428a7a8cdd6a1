/** The address class: parsing into, and printing from, its sixteen bytes. */
module IPAddresses {
  import opened Sequences
  import opened Printing
  import opened AddressText
  import opened DottedText
  import opened CanonicalText

  datatype IPType = IPv4 | IPv6

  const V4_INDEX := 12

  // -------------------------------------------------------- Bytes and fields

  function FieldsOf(b: seq<Byte>): (v: seq<Field>)
    requires |b| == 16
    ensures |v| == 8
  {
    seq(8, i requires 0 <= i < 8 => FieldOf(b[2 * i], b[2 * i + 1]))
  }

  function FieldOf(high: int, low: int): Field
    requires 0 <= high < 0x100 && 0 <= low < 0x100
  {
    high * 0x100 + low
  }

  /** The first fields are overwritten, the other bytes stay. */
  function WithFields(b: seq<Byte>, v: seq<Field>): (r: seq<Byte>)
    requires |b| == 16 && |v| <= 8
    ensures |r| == 16
  {
    seq(16, i requires 0 <= i < 16 =>
      if i < 2 * |v| then (if i % 2 == 0 then v[i / 2] / 0x100 else v[i / 2] % 0x100) else b[i])
  }

  function FieldBytes(v: seq<Field>): (b: seq<Byte>)
    requires |v| == 8
    ensures |b| == 16
  {
    WithFields(seq(16, i => 0), v)
  }

  lemma FieldsOfBytes(b: seq<Byte>)
    requires |b| == 16
    ensures FieldBytes(FieldsOf(b)) == b
  {
    forall i | 0 <= i < 16 ensures FieldBytes(FieldsOf(b))[i] == b[i] {
      assert i == 2 * (i / 2) || i == 2 * (i / 2) + 1;
    }
  }

  lemma OneMoreField(b: seq<Byte>, v: seq<Field>, f: Field)
    requires |b| == 16 && |v| < 8
    ensures WithFields(b, v + [f]) == WithFields(b, v)[2 * |v| := f / 0x100][2 * |v| + 1 := f % 0x100]
  {
    var after := WithFields(b, v)[2 * |v| := f / 0x100][2 * |v| + 1 := f % 0x100];
    forall i | 0 <= i < 16 ensures WithFields(b, v + [f])[i] == after[i] {
      if i < 2 * |v| {
        assert (v + [f])[i / 2] == v[i / 2];
      }
    }
  }

  /** The bytes with the parts of an IPv4 address, and zeros elsewhere. */
  function PartBytes(parts: seq<Byte>): (b: seq<Byte>)
    requires |parts| <= 4
    ensures |b| == 16
  {
    seq(16, i requires 0 <= i < 16 => if V4_INDEX <= i < V4_INDEX + |parts| then parts[i - V4_INDEX] else 0)
  }

  lemma OneMorePart(parts: seq<Byte>, b: Byte)
    requires |parts| < 4
    ensures PartBytes(parts + [b]) == PartBytes(parts)[V4_INDEX + |parts| := b]
  {
  }

  // ------------------------------------------------------------ What is read

  /** The outcome of fromString on a text, and the object it leaves. */
  datatype Reading = Reading(ok: bool, kind: IPType, bytes: seq<Byte>)

  function Read(text: ZeroFree, kind: IPType): Reading {
    var r4 := Scan4(text, [], -1);
    if Finish4(r4).Parsed? then Reading(true, IPv4, PartBytes(Finish4(r4).value)) else Read6(text, kind, PartBytes(r4.parts))
  }

  function Read6(text: ZeroFree, kind: IPType, b: seq<Byte>): Reading
    requires |b| == 16
  {
    var r6 := Scan6(text, [], 0, -1);
    match Finish6(r6)
    case Parsed(v) => Reading(true, IPv6, FieldBytes(v))
    case Rejected => Reading(false, kind, WithFields(b, r6.fields))
  }

  // -------------------------------------------------------------- The class

  class IPAddress {
    var kind: IPType
    const bytes: array<Byte>

    ghost predicate Valid() {
      bytes.Length == 16
    }

    constructor (kind: IPType)
      ensures Valid() && fresh(bytes) && this.kind == kind && bytes[..] == FieldBytes(Zeros(8))
    {
      this.kind := kind;
      bytes := new Byte[16](i => 0);
    }

    method Store(f: Field, index: nat, ghost before: seq<Byte>, ghost v: seq<Field>)
      requires Valid() && |before| == 16 && |v| == index < 8 && bytes[..] == WithFields(before, v)
      modifies bytes
      ensures bytes[..] == WithFields(before, v + [f])
    {
      OneMoreField(before, v, f);
      bytes[index * 2] := f / 0x100;
      bytes[index * 2 + 1] := f % 0x100;
    }

    /** The moves that make room for the zero fields of a double colon. */
    method Spread(colons: nat, doubleColons: nat, ghost before: seq<Byte>, ghost all: seq<Field>)
      requires Valid() && |before| == 16 && doubleColons <= colons == |all| <= 7
      requires bytes[..] == WithFields(before, all)
      modifies bytes
      ensures bytes[..] == FieldBytes(Expand(all, doubleColons))
    {
      var d, n := doubleColons * 2, colons * 2;
      ghost var b := bytes[..];
      var i := n - d - 1;
      while i >= 0
        invariant -1 <= i < n - d
        invariant forall k :: 0 <= k <= d + i ==> bytes[k] == b[k]
        invariant forall k :: 0 <= k < d ==> bytes[k] == b[k]
        invariant forall k :: 16 - n + d + i < k < 16 ==> bytes[k] == b[k - (16 - n)]
      {
        bytes[16 - n + d + i] := bytes[d + i];
        i := i - 1;
      }
      i := d;
      while i < 16 - n + d
        invariant d <= i <= 16 - n + d
        invariant forall k :: 0 <= k < d ==> bytes[k] == b[k]
        invariant forall k :: d <= k < i ==> bytes[k] == 0
        invariant forall k :: 16 - n + d <= k < 16 ==> bytes[k] == b[k - (16 - n)]
      {
        bytes[i] := 0;
        i := i + 1;
      }
      SpreadBytes(before, all, doubleColons, bytes[..]);
    }

    method FromString4(text: ZeroFree) returns (ok: bool)
      requires Valid()
      modifies this, bytes
      ensures var r := Scan4(text, [], -1);
              && ok == Finish4(r).Parsed?
              && kind == (if ok then IPv4 else old(kind))
              && bytes[..] == PartBytes(if ok then Finish4(r).value else r.parts)
    {
      for i := 0 to 16
        invariant forall k :: 0 <= k < i ==> bytes[k] == 0
        invariant kind == old(kind)
      {
        bytes[i] := 0;
      }
      var acc, dots, i := -1, 0, 0;
      ghost var parts: seq<Byte> := [];
      assert bytes[..] == PartBytes(parts);
      assert text[0..] == text;
      while i < |text|
        invariant 0 <= i <= |text| && -1 <= acc < 0x100 && dots == |parts| <= 3
        invariant kind == old(kind) && bytes[..] == PartBytes(parts)
        invariant Scan4(text, [], -1) == Scan4(text[i..], parts, acc)
      {
        var c := text[i];
        i := i + 1;
        assert text[i - 1..][1..] == text[i..];
        if '0' as int <= c <= '9' as int {
          acc := if acc < 0 then c - '0' as int else acc * 10 + (c - '0' as int);
          if acc > 255 {
            return false;
          }
        } else if c == DOT {
          if dots == 3 {
            return false;
          }
          if acc < 0 {
            return false;
          }
          OneMorePart(parts, acc);
          bytes[V4_INDEX + dots] := acc;
          parts := parts + [acc];
          dots := dots + 1;
          acc := -1;
        } else {
          return false;
        }
      }
      if dots != 3 || acc < 0 {
        return false;
      }
      OneMorePart(parts, acc);
      bytes[V4_INDEX + 3] := acc;
      kind := IPv4;
      ok := true;
    }

    method FromString6(text: ZeroFree) returns (ok: bool)
      requires Valid()
      modifies this, bytes
      ensures Reading(ok, kind, bytes[..]) == Read6(text, old(kind), old(bytes[..]))
    {
      hide WithFields, Expand, Scan6, HexDigit;
      ghost var before, fields: seq<Field> := bytes[..], [];
      NothingWritten(before);
      var acc, colons, doubleColons, i := 0, 0, -1, 0;
      assert text[0..] == text;
      while i < |text|
        invariant 0 <= i <= |text| && 0 <= acc <= 0xFFFF && colons == |fields| <= 7
        invariant -1 <= doubleColons <= colons
        invariant kind == old(kind) && bytes[..] == WithFields(before, fields)
        invariant Scan6(text, [], 0, -1) == Scan6(text[i..], fields, acc, doubleColons)
      {
        ghost var rest := text[i..];
        ScanStep(rest, fields, acc, doubleColons);
        var c := HexDigit(text[i]);
        var colon := text[i] == COLON;
        i := i + 1;
        assert rest[1..] == text[i..];
        if c >= 0 {
          acc := acc * 16 + c;
          if acc > 0xFFFF {
            return false;
          }
        } else if colon {
          if i < |text| && text[i] == COLON {
            if doubleColons >= 0 {
              return false;
            }
            if i + 1 < |text| && text[i + 1] == COLON {
              return false;
            }
            doubleColons := colons + (if acc == 0 then 0 else 1);
            i := i + 1;
            assert rest[2..] == text[i..];
          } else if i == |text| {
            return false;
          }
          if colons == 7 {
            return false;
          }
          Store(acc, colons, before, fields);
          fields := fields + [acc];
          colons := colons + 1;
          acc := 0;
        } else {
          return false;
        }
      }
      ScanEnd(fields, acc, doubleColons);
      if doubleColons == -1 && colons != 7 {
        return false;
      }
      if doubleColons > -1 && colons > 6 {
        return false;
      }
      Store(acc, colons, before, fields);
      colons := colons + 1;
      if doubleColons != -1 {
        Spread(colons, doubleColons, before, fields + [acc]);
      } else {
        AllWritten(before, fields + [acc]);
      }
      kind := IPv6;
      ok := true;
    }

    /** The text decides the outcome: what the object held before matters only for the type that a
        failed attempt leaves. */
    method FromString(text: ZeroFree) returns (ok: bool)
      requires Valid()
      modifies this, bytes
      ensures Reading(ok, kind, bytes[..]) == Read(text, old(kind))
    {
      hide Scan4, Scan6, WithFields, PartBytes, Expand;
      ok := FromString4(text);
      if !ok {
        ok := FromString6(text);
      }
    }

    /** The scan for the zero fields to leave out. */
    method LongestRun() returns (r: Run)
      requires Valid()
      ensures LeftmostLongest(FieldsOf(bytes[..]), r)
    {
      hide FieldsOf, RunSoFar, CurrentRun, LeftmostLongest;
      ghost var v := FieldsOf(bytes[..]);
      RunStart(v);
      var longest := Run(-1, 1);
      var current := Run(-1, 0);
      for f := 0 to 8
        invariant RunSoFar(v, f, longest)
        invariant CurrentRun(v, f, current)
      {
        FieldIsZero(bytes[..], f);
        if bytes[f * 2] == 0 && bytes[f * 2 + 1] == 0 {
          RunGrows(v, f, longest, current);
          if current.start == -1 {
            current := Run(f, 1);
          } else {
            current := current.(length := current.length + 1);
          }
          if current.length > longest.length {
            longest := current;
          }
        } else {
          RunEnds(v, f, longest, current);
          current := current.(start := -1);
        }
      }
      RunDone(v, longest);
      r := longest;
    }

    method ToString4() returns (s: seq<Byte>)
      requires Valid()
      ensures s == Dotted(bytes[V4_INDEX..])
    {
      hide DecimalText;
      ghost var gs := DottedParts(bytes[V4_INDEX..]);
      JoinFour(gs, DOT);
      s := Snprintf(DecimalText(bytes[V4_INDEX]) + [DOT] + (DecimalText(bytes[V4_INDEX + 1]) + [DOT]
        + (DecimalText(bytes[V4_INDEX + 2]) + [DOT] + DecimalText(bytes[V4_INDEX + 3]))), 16);
      forall i | 0 <= i < 4 ensures |gs[i]| <= 3 {
        DecimalLength(bytes[V4_INDEX + i]);
      }
      JoinLength(gs, DOT, 3);
    }

    method ToString6() returns (s: seq<Byte>)
      requires Valid()
      ensures s == JoinAny(FullTexts(FieldsOf(bytes[..])))
    {
      hide TwoHex, FullHex, FieldsOf, Join;
      ghost var gs := FullTexts(FieldsOf(bytes[..]));
      forall i | 0 <= i < 8 ensures gs[i] == TwoHex(bytes[i * 2]) + TwoHex(bytes[i * 2 + 1]) && |gs[i]| == 4 {
        FieldParts(bytes[..], i);
        FullHexOf(bytes[i * 2], bytes[i * 2 + 1]);
        FullHexLength(FieldsOf(bytes[..])[i]);
      }
      JoinEight(gs, COLON);
      JoinFour(gs[4..], COLON);
      JoinLength(gs, COLON, 4);
      s := Snprintf(
        TwoHex(bytes[0]) + TwoHex(bytes[1]) + [COLON] + (TwoHex(bytes[2]) + TwoHex(bytes[3]) + [COLON]
        + (TwoHex(bytes[4]) + TwoHex(bytes[5]) + [COLON] + (TwoHex(bytes[6]) + TwoHex(bytes[7]) + [COLON]
        + (TwoHex(bytes[8]) + TwoHex(bytes[9]) + [COLON] + (TwoHex(bytes[10]) + TwoHex(bytes[11]) + [COLON]
        + (TwoHex(bytes[12]) + TwoHex(bytes[13]) + [COLON] + (TwoHex(bytes[14]) + TwoHex(bytes[15])))))))), 40);
    }

    /** The loop that writes the fields, each without its leading zeros. */
    method PrintFields(p: Print, r: Run) returns (n: nat)
      requires Valid()
      modifies p
      ensures p.out == old(p.out) + Emitted(FieldsOf(bytes[..]), r, 8) && n == |p.out| - |old(p.out)|
    {
      ghost var v, before := FieldsOf(bytes[..]), p.out;
      n := 0;
      assert Emitted(v, r, 0) == [];
      hide Emitted, Piece, FieldsOf;
      for f := 0 to 8
        invariant p.out == before + Emitted(v, r, f) && n == |p.out| - |before|
      {
        EmittedStep(v, r, f);
        Regroup(before, Emitted(v, r, f), Piece(v, r, f));
        var k := PrintPiece(p, r, f);
        n := n + k;
      }
    }

    method PrintPiece(p: Print, r: Run, f: nat) returns (n: nat)
      requires Valid() && f < 8
      modifies p
      ensures p.out == old(p.out) + Piece(FieldsOf(bytes[..]), r, f) && n == |Piece(FieldsOf(bytes[..]), r, f)|
    {
      hide ShortHex, FieldsOf;
      FieldParts(bytes[..], f);
      n := 0;
      if f < r.start || f >= r.start + r.length {
        n := PrintField(p, bytes[f * 2], bytes[f * 2 + 1]);
        if f < 7 {
          var k := p.Write(COLON);
          n := n + k;
        }
      } else if f == r.start {
        if r.start == 0 {
          var k := p.Write(COLON);
          n := n + k;
        }
        var k := p.Write(COLON);
        n := n + k;
      }
    }

    /** printTo: the address as text, and the number of bytes written. */
    method PrintTo(p: Print) returns (n: nat)
      requires Valid()
      modifies p
      ensures n == |p.out| - |old(p.out)|
      ensures kind == IPv4 ==> p.out == old(p.out) + Dotted(bytes[V4_INDEX..])
      ensures kind == IPv6 ==>
        && (exists r :: LeftmostLongest(FieldsOf(bytes[..]), r))
        && forall r :: LeftmostLongest(FieldsOf(bytes[..]), r) ==>
             p.out == old(p.out) + Canonical(FieldsOf(bytes[..]), r)
    {
      ghost var before := p.out;
      if kind == IPv6 {
        ghost var v := FieldsOf(bytes[..]);
        var r := LongestRun();
        n := PrintFields(p, r);
        EmittedCanonical(v, r);
        forall q | LeftmostLongest(v, q) ensures q == r {
          RunUnique(v, q, r);
        }
        return;
      }
      n := 0;
      for i := 0 to 3
        invariant p.out == before + Trail(DottedParts(bytes[V4_INDEX..V4_INDEX + i]), DOT) && n == |p.out| - |before|
      {
        var k := PrintByte(p, bytes[V4_INDEX + i]);
        var dot := p.Write(DOT);
        n := n + k + dot;
        LastDottedPart(bytes[V4_INDEX..V4_INDEX + i + 1]);
        assert AllButLast(bytes[V4_INDEX..V4_INDEX + i + 1]) == bytes[V4_INDEX..V4_INDEX + i];
      }
      var k := PrintByte(p, bytes[V4_INDEX + 3]);
      n := n + k;
      LastDottedPart(bytes[V4_INDEX..]);
      JoinTrail(DottedParts(bytes[V4_INDEX..]), DOT);
      assert AllButLast(bytes[V4_INDEX..]) == bytes[V4_INDEX..V4_INDEX + 3];
    }
  }

  /** snprintf: what fits a buffer of `size` bytes with its final zero. */
  function Snprintf(s: seq<Byte>, size: nat): seq<Byte>
    requires size >= 1
  {
    if |s| < size then s else s[..size - 1]
  }

  function TwoHex(b: Byte): seq<Byte> {
    [LowerHexChar(b / 16), LowerHexChar(b % 16)]
  }

  lemma FullHexOf(high: Byte, low: Byte)
    ensures TwoHex(high) + TwoHex(low) == FullHex(FieldOf(high, low))
  {
    NibblesOf(high, low);
  }

  lemma FullHexLength(f: Field)
    ensures |FullHex(f)| == 4
  {
  }

  lemma JoinStep(gs: seq<seq<Byte>>, k: nat, separator: Byte)
    requires k + 1 < |gs|
    ensures Join(gs[k..], separator) == gs[k] + [separator] + Join(gs[k + 1..], separator)
  {
    assert gs[k..][1..] == gs[k + 1..];
  }

  lemma JoinFour(gs: seq<seq<Byte>>, separator: Byte)
    requires |gs| == 4
    ensures Join(gs, separator)
         == gs[0] + [separator] + (gs[1] + [separator] + (gs[2] + [separator] + gs[3]))
  {
    assert Join(gs[3..], separator) == gs[3];
    hide Join;
    assert gs[0..] == gs;
    JoinStep(gs, 0, separator);
    JoinStep(gs, 1, separator);
    JoinStep(gs, 2, separator);
  }

  lemma JoinEight(gs: seq<seq<Byte>>, separator: Byte)
    requires |gs| == 8
    ensures Join(gs, separator)
         == gs[0] + [separator] + (gs[1] + [separator] + (gs[2] + [separator] + (gs[3] + [separator]
          + Join(gs[4..], separator))))
  {
    hide Join;
    assert gs[0..] == gs;
    JoinStep(gs, 0, separator);
    JoinStep(gs, 1, separator);
    JoinStep(gs, 2, separator);
    JoinStep(gs, 3, separator);
  }

  /** The nibbles of one field, without leading zeros. */
  method PrintField(p: Print, high: Byte, low: Byte) returns (n: nat)
    modifies p
    ensures p.out == old(p.out) + ShortHex(FieldOf(high, low)) && n == |ShortHex(FieldOf(high, low))|
  {
    ghost var before := p.out;
    var c1, c2, c3, c4 := high / 16, high % 16, low / 16, low % 16;
    NibblesOf(high, low);
    n := 0;
    if c1 > 0 {
      var k := p.Write(LowerHexChar(c1));
      n := n + k;
    }
    if c1 > 0 || c2 > 0 {
      var k := p.Write(LowerHexChar(c2));
      n := n + k;
    }
    if c1 > 0 || c2 > 0 || c3 > 0 {
      var k := p.Write(LowerHexChar(c3));
      n := n + k;
    }
    var k := p.Write(LowerHexChar(c4));
    n := n + k;
    assert p.out == before + ShortHex(FieldOf(high, low));
  }

  lemma NibblesOf(high: Byte, low: Byte)
    ensures Nibbles(FieldOf(high, low)) == [high / 16, high % 16, low / 16, low % 16]
  {
    var f := FieldOf(high, low);
    assert f / 0x100 == high && f % 0x100 == low;
    assert f / 0x1000 == f / 0x100 / 16;
    assert f / 16 % 16 == low / 16;
  }

  lemma FieldParts(b: seq<Byte>, f: nat)
    requires |b| == 16 && f < 8
    ensures FieldsOf(b)[f] == FieldOf(b[f * 2], b[f * 2 + 1])
  {
  }

  /** print(unsigned char, DEC). */
  method PrintByte(p: Print, b: Byte) returns (n: nat)
    modifies p
    ensures p.out == old(p.out) + DecimalText(b) && n == |DecimalText(b)|
  {
    hide Digits, Text, CString, IsPart, Number;
    DecimalTextValue(b);
    n := p.PrintNumber(b, 10);
  }

  lemma LastDottedPart(v: seq<Byte>)
    requires v != []
    ensures AllButLast(DottedParts(v)) == DottedParts(AllButLast(v))
    ensures Last(DottedParts(v)) == DecimalText(Last(v))
  {
  }

  // ---------------------------------------------------- The longest zero run

  lemma FieldIsZero(b: seq<Byte>, f: nat)
    requires |b| == 16 && f < 8
    ensures FieldsOf(b)[f] == 0 <==> b[f * 2] == 0 && b[f * 2 + 1] == 0
  {
  }

  /** The run to leave out if only the first `f` fields count. */
  ghost predicate RunSoFar(v: seq<Field>, f: nat, r: Run) {
    if r.length < 2 then
      r == Run(-1, 1) && forall s, l :: ZeroRun(v, s, l) && s + l <= f ==> l < 2
    else
      && ZeroRun(v, r.start, r.length) && r.start + r.length <= f
      && forall s, l :: ZeroRun(v, s, l) && s + l <= f ==> l < r.length || (l == r.length && r.start <= s)
  }

  /** The zero fields just before field `f`, all of them; a start of -1 for none. */
  ghost predicate CurrentRun(v: seq<Field>, f: nat, current: Run)
    requires |v| == 8 && f <= 8
  {
    if current.start == -1 then f == 0 || v[f - 1] != 0
    else && current.length >= 1 && current.start + current.length == f
         && ZeroRun(v, current.start, current.length)
         && (current.start == 0 || v[current.start - 1] != 0)
  }

  lemma RunStart(v: seq<Field>)
    requires |v| == 8
    ensures RunSoFar(v, 0, Run(-1, 1)) && CurrentRun(v, 0, Run(-1, 0))
  {
  }

  lemma RunDone(v: seq<Field>, r: Run)
    requires |v| == 8 && RunSoFar(v, 8, r)
    ensures LeftmostLongest(v, r)
  {
  }

  /** A field that is not zero changes nothing. */
  lemma RunEnds(v: seq<Field>, f: nat, r: Run, current: Run)
    requires |v| == 8 && f < 8 && RunSoFar(v, f, r) && v[f] != 0
    ensures RunSoFar(v, f + 1, r) && CurrentRun(v, f + 1, current.(start := -1))
  {
    forall s, l | ZeroRun(v, s, l) && s + l == f + 1 ensures l == 0 {
    }
  }

  /** A zero field makes the current run one longer. */
  lemma RunGrows(v: seq<Field>, f: nat, r: Run, current: Run)
    requires |v| == 8 && f < 8 && RunSoFar(v, f, r) && CurrentRun(v, f, current) && v[f] == 0
    ensures var c := if current.start == -1 then Run(f, 1) else current.(length := current.length + 1);
            && CurrentRun(v, f + 1, c)
            && RunSoFar(v, f + 1, if c.length > r.length then c else r)
  {
    var c := if current.start == -1 then Run(f, 1) else current.(length := current.length + 1);
    forall s, l | ZeroRun(v, s, l) && s + l == f + 1 ensures s >= c.start {
    }
  }

  lemma NothingWritten(b: seq<Byte>)
    requires |b| == 16
    ensures WithFields(b, []) == b
  {
  }

  lemma AllWritten(b: seq<Byte>, v: seq<Field>)
    requires |b| == 16 && |v| == 8
    ensures WithFields(b, v) == FieldBytes(v)
  {
  }

  lemma SpreadBytes(before: seq<Byte>, all: seq<Field>, dc: nat, after: seq<Byte>)
    requires |before| == 16 == |after| && dc <= |all| <= 7
    requires var b, d, n := WithFields(before, all), 2 * dc, 2 * |all|;
             && (forall k :: 0 <= k < d ==> after[k] == b[k])
             && (forall k :: d <= k < 16 - n + d ==> after[k] == 0)
             && (forall k :: 16 - n + d <= k < 16 ==> after[k] == b[k - (16 - n)])
    ensures after == FieldBytes(Expand(all, dc))
  {
    var v := Expand(all, dc);
    forall i | 0 <= i < 16 ensures after[i] == FieldBytes(v)[i] {
      if i >= 16 - 2 * |all| + 2 * dc {
        var j := i - (16 - 2 * |all|);
        assert v[i / 2] == all[j / 2];
      }
    }
  }

  // ------------------------------------------------------------- Round trips

  /** For every address, the text of printTo and the text of toString6 are read back as the same bytes
      and type, whatever type the object had before. */
  lemma ReadPrinted6(b: seq<Byte>, r: Run, kind: IPType)
    requires |b| == 16 && LeftmostLongest(FieldsOf(b), r)
    ensures var text := Canonical(FieldsOf(b), r); 0 !in text && Read(text, kind) == Reading(true, IPv6, b)
    ensures var text := JoinAny(FullTexts(FieldsOf(b))); 0 !in text && Read(text, kind) == Reading(true, IPv6, b)
  {
    hide Scan4, Scan6, Canonical, FullTexts, JoinAny, FieldsOf, WithFields, PartBytes;
    var v := FieldsOf(b);
    FieldsOfBytes(b);
    CanonicalRoundTrip(v, r);
    FullRoundTrip(v);
    CanonicalHasColon(v, r);
    ColonIsNotDotted(Canonical(v, r));
    ColonIsNotDotted(JoinAny(FullTexts(v)));
  }

  /** The text of an IPv4 address is read back as its four bytes; the object is the same exactly if the
      twelve bytes in front of them are zero. */
  lemma ReadPrinted4(b: seq<Byte>, kind: IPType)
    requires |b| == 16
    ensures var text := Dotted(b[V4_INDEX..]);
            && 0 !in text
            && Read(text, kind) == Reading(true, IPv4, PartBytes(b[V4_INDEX..]))
            && (Read(text, kind).bytes == b <==> forall i :: 0 <= i < V4_INDEX ==> b[i] == 0)
  {
    hide Scan4, Dotted;
    DottedRoundTrip(b[V4_INDEX..]);
    var p := PartBytes(b[V4_INDEX..]);
    if forall i :: 0 <= i < V4_INDEX ==> b[i] == 0 {
      assert p == b;
    } else {
      var i :| 0 <= i < V4_INDEX && b[i] != 0;
      assert p[i] != b[i];
    }
  }

  /** Those bytes are not always zero: a text that is rejected late leaves the fields before the
      mistake in an object that stays an IPv4 address. */
  lemma RejectedTextLeavesFields()
    ensures var r := Read(['1' as int, COLON, 'g' as int], IPv4);
            !r.ok && r.kind == IPv4 && r.bytes[1] == 1
  {
    var text: ZeroFree := ['1' as int, COLON, 'g' as int];
    assert text[1..][0] == COLON && text[1..][1..] == ['g' as int];
    assert Scan4(text[1..], [], 1) == Bad4([]);
    assert Scan4(text, [], -1) == Bad4([]);
    assert Scan6(['g' as int], [1], 0, -1) == Bad([1]);
    assert Scan6(text[1..], [], 1, -1) == Bad([1]);
    assert Scan6(text, [], 0, -1) == Bad([1]);
  }
}
