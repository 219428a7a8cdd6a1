/** The text forms of IP addresses: what the parsers accept, what the printers produce, and why the
    parsers undo the printers. */
module AddressText {
  import opened Sequences
  import opened Printing

  type ZeroFree = s: seq<Byte> | 0 !in s witness []
  type Field = f: nat | f < 0x1_0000

  const DOT: Byte := '.' as int
  const COLON: Byte := ':' as int

  // ------------------------------------------------------------ Hexadecimal

  /** The value of a hexadecimal digit in either case, or -1. */
  function HexDigit(c: Byte): (v: int)
    ensures -1 <= v < 16
    ensures c == 0 || c == COLON || c == DOT ==> v == -1
  {
    if '0' as int <= c <= '9' as int then c - '0' as int
    else if 'a' as int <= c <= 'f' as int then c - 'a' as int + 10
    else if 'A' as int <= c <= 'F' as int then c - 'A' as int + 10
    else -1
  }

  /** Exactly the sixteen digits are read, the letters in either case. */
  lemma EitherCase(c: Byte, d: nat)
    requires d < 16
    ensures HexDigit(c) == d <==> c as char == "0123456789abcdef"[d] || c as char == "0123456789ABCDEF"[d]
  {
  }

  predicate IsHex(g: seq<Byte>) {
    forall i :: 0 <= i < |g| ==> HexDigit(g[i]) >= 0
  }

  function DigitsOf(g: seq<Byte>): seq<nat>
    requires IsHex(g)
  {
    seq(|g|, i requires 0 <= i < |g| => HexDigit(g[i]))
  }

  function Number(g: seq<Byte>, base: nat): nat
    requires IsHex(g)
  {
    Value(DigitsOf(g), base)
  }

  function HexValue(g: seq<Byte>): nat
    requires IsHex(g)
  {
    Number(g, 16)
  }

  lemma NumberAppend(g: seq<Byte>, c: Byte, base: nat)
    requires IsHex(g) && HexDigit(c) >= 0
    ensures IsHex(g + [c]) && Number(g + [c], base) == Number(g, base) * base + HexDigit(c)
  {
    assert DigitsOf(g + [c])[..|g|] == DigitsOf(g);
  }

  lemma {:induction false} NumberGrows(p: seq<Byte>, g: seq<Byte>, base: nat)
    requires IsHex(p + g) && base >= 1
    ensures IsHex(p) && Number(p, base) <= Number(p + g, base)
  {
    assert forall i :: 0 <= i < |p| ==> p[i] == (p + g)[i];
    if g == [] {
      assert p + g == p;
    } else {
      var q := p + AllButLast(g);
      assert p + g == q + [Last(g)];
      assert forall i :: 0 <= i < |q| ==> q[i] == (p + g)[i];
      assert (p + g)[|q|] == Last(g);
      NumberGrows(p, AllButLast(g), base);
      NumberAppend(q, Last(g), base);
      ProductMonotone(1, base, Number(q, base));
    }
  }

  function AllButLast<T>(s: seq<T>): seq<T>
    requires s != []
  {
    s[..|s| - 1]
  }

  function Last<T>(s: seq<T>): T
    requires s != []
  {
    s[|s| - 1]
  }

  /** A group of hexadecimal digits that fits a field. */
  predicate IsGroup(g: seq<Byte>) {
    IsHex(g) && HexValue(g) < 0x1_0000
  }

  predicate AreGroups(gs: seq<seq<Byte>>) {
    && (forall i :: 0 <= i < |gs| ==> IsGroup(gs[i]))
    && (forall i :: 1 <= i < |gs| ==> gs[i] != [])
  }

  function Values(gs: seq<seq<Byte>>): (v: seq<Field>)
    requires AreGroups(gs)
    ensures |v| == |gs|
  {
    seq(|gs|, i requires 0 <= i < |gs| => HexValue(gs[i]))
  }

  function Join(gs: seq<seq<Byte>>, separator: Byte): seq<Byte>
    requires gs != []
  {
    if |gs| == 1 then gs[0] else gs[0] + [separator] + Join(gs[1..], separator)
  }

  /** The separators are the characters of the text formats. */
  lemma Separators(a: seq<Byte>, b: seq<Byte>)
    ensures Join([a, b], COLON) == a + [':' as int] + b
    ensures Join([a, b], DOT) == a + ['.' as int] + b
  {
    assert Join([b], COLON) == b && Join([b], DOT) == b;
    assert [a, b][1..] == [b];
  }

  // ------------------------------------------------------------- IPv6 parser

  /** How far the IPv6 parser gets: the fields that are closed, the field being read, and where the
      double colon was (-1 for nowhere); or the fields closed before it gave up. */
  datatype Scan = Scan(fields: seq<Field>, acc: Field, doubleColon: int) | Bad(fields: seq<Field>)

  function Scan6(rest: ZeroFree, fields: seq<Field>, acc: Field, doubleColon: int): (r: Scan)
    requires |fields| <= 7 && -1 <= doubleColon <= |fields|
    ensures |r.fields| <= 7 && (r.Scan? ==> -1 <= r.doubleColon <= |r.fields|)
    ensures r.Scan? && doubleColon >= 0 ==> r.doubleColon == doubleColon
    decreases |rest|
  {
    if rest == [] then Scan(fields, acc, doubleColon)
    else if HexDigit(rest[0]) >= 0 then
      var more := acc * 16 + HexDigit(rest[0]);
      if more > 0xFFFF then Bad(fields) else Scan6(rest[1..], fields, more, doubleColon)
    else if rest[0] != COLON then Bad(fields)
    else if |rest| == 1 then Bad(fields)
    else if rest[1] == COLON then
      if doubleColon >= 0 || (|rest| > 2 && rest[2] == COLON) || |fields| == 7 then Bad(fields)
      else Scan6(rest[2..], fields + [acc], 0, |fields| + (if acc == 0 then 0 else 1))
    else if |fields| == 7 then Bad(fields)
    else Scan6(rest[1..], fields + [acc], 0, doubleColon)
  }

  datatype Parsed<T> = Parsed(value: T) | Rejected

  /** All eight fields, with zeros where the double colon was. */
  function Expand(all: seq<Field>, doubleColon: nat): (r: seq<Field>)
    requires doubleColon <= |all| <= 8
    ensures |r| == 8
  {
    all[..doubleColon] + Zeros(8 - |all|) + all[doubleColon..]
  }

  function Zeros(n: nat): (z: seq<Field>)
    ensures |z| == n && forall i :: 0 <= i < n ==> z[i] == 0
  {
    seq(n, i => 0)
  }

  function Parse6(text: ZeroFree): Parsed<seq<Field>> {
    Finish6(Scan6(text, [], 0, -1))
  }

  function Finish6(s: Scan): Parsed<seq<Field>>
    requires |s.fields| <= 7 && (s.Scan? ==> -1 <= s.doubleColon <= |s.fields|)
  {
    if s.Bad? || (if s.doubleColon < 0 then |s.fields| != 7 else |s.fields| > 6) then Rejected
    else if s.doubleColon < 0 then Parsed(s.fields + [s.acc])
    else Parsed(Expand(s.fields + [s.acc], s.doubleColon))
  }

  // ----------------------------------------------- What the IPv6 parser accepts

  /** Eight groups, of which only the first may be empty. */
  predicate IsFull(text: seq<Byte>, v: seq<Field>, gs: seq<seq<Byte>>) {
    |gs| == 8 && AreGroups(gs) && text == Join(gs, COLON) && v == Values(gs)
  }

  /** Groups on both sides of a double colon, seven at most; a side without groups counts as one. */
  predicate IsCompressed(text: seq<Byte>, v: seq<Field>, gs: seq<seq<Byte>>, hs: seq<seq<Byte>>) {
    && gs != [] && hs != [] && |gs| + |hs| <= 7
    && AreGroups(gs) && AreGroups(hs) && (hs[0] == [] ==> |hs| == 1)
    && text == Join(gs, COLON) + [COLON, COLON] + Join(hs, COLON)
    && v == Values(gs) + Zeros(8 - |gs| - |hs|) + Values(hs)
  }

  /** The digits of a group are read into the current field. */
  lemma {:induction false} ScanGroup(p: seq<Byte>, g: seq<Byte>, rest: ZeroFree, fields: seq<Field>, dc: int)
    requires IsGroup(p + g) && 0 !in g && |fields| <= 7 && -1 <= dc <= |fields|
    ensures IsGroup(p)
    ensures Scan6(g + rest, fields, HexValue(p), dc) == Scan6(rest, fields, HexValue(p + g), dc)
    decreases |g|
  {
    NumberGrows(p, g, 16);
    if g == [] {
      assert p + g == p && g + rest == rest;
    } else {
      var q := p + [g[0]];
      assert (p + g)[|p|] == g[0];
      assert p + g == q + g[1..];
      NumberGrows(q, g[1..], 16);
      NumberAppend(p, g[0], 16);
      assert (g + rest)[1..] == g[1..] + rest;
      ScanGroup(q, g[1..], rest, fields, dc);
    }
  }

  lemma GroupHasNoZero(g: seq<Byte>)
    requires IsHex(g)
    ensures 0 !in g && COLON !in g && DOT !in g
  {
  }

  lemma {:induction false} JoinHasNoZero(gs: seq<seq<Byte>>, separator: Byte)
    requires gs != [] && separator != 0 && AreGroups(gs)
    ensures 0 !in Join(gs, separator)
  {
    GroupHasNoZero(gs[0]);
    if |gs| > 1 {
      JoinHasNoZero(gs[1..], separator);
    }
  }

  /** A group that is not empty starts with neither a colon nor the end of the text. */
  lemma JoinStart(gs: seq<seq<Byte>>)
    requires gs != [] && AreGroups(gs) && gs[0] != []
    ensures Join(gs, COLON) != [] && HexDigit(Join(gs, COLON)[0]) >= 0 && Join(gs, COLON)[0] != COLON
  {
  }

  lemma ValuesStep(gs: seq<seq<Byte>>)
    requires gs != [] && AreGroups(gs)
    ensures AreGroups(gs[1..]) && Values(gs) == [HexValue(gs[0])] + Values(gs[1..])
  {
    assert forall i :: 0 <= i < |gs[1..]| ==> gs[1..][i] == gs[i + 1];
  }

  lemma ScanColon(rest: ZeroFree, fields: seq<Field>, acc: Field, dc: int)
    requires rest != [] && rest[0] != COLON && |fields| < 7 && -1 <= dc <= |fields|
    ensures Scan6([COLON] + rest, fields, acc, dc) == Scan6(rest, fields + [acc], 0, dc)
  {
    assert ([COLON] + rest)[1..] == rest;
  }

  lemma DoubleColonStep(text: ZeroFree, fields: seq<Field>, acc: Field)
    requires |text| >= 2 && text[0] == text[1] == COLON && (|text| > 2 ==> text[2] != COLON) && |fields| < 7
    ensures Scan6(text, fields, acc, -1)
         == Scan6(text[2..], fields + [acc], 0, |fields| + (if acc == 0 then 0 else 1))
  {
  }

  lemma ScanDoubleColon(rest: ZeroFree, fields: seq<Field>, acc: Field)
    requires (rest == [] || rest[0] != COLON) && |fields| < 7
    ensures Scan6([COLON, COLON] + rest, fields, acc, -1)
         == Scan6(rest, fields + [acc], 0, |fields| + (if acc == 0 then 0 else 1))
  {
    hide Scan6, HexDigit;
    assert ([COLON, COLON] + rest)[2..] == rest;
    DoubleColonStep([COLON, COLON] + rest, fields, acc);
  }

  lemma SplitLast(a: seq<Field>)
    requires a != []
    ensures AllButLast(a) + [Last(a)] == a && |AllButLast(a)| == |a| - 1
  {
  }

  lemma FirstValue(gs: seq<seq<Byte>>, fields: seq<Field>)
    requires |gs| > 1 && AreGroups(gs)
    ensures AreGroups(gs[1..]) && Last(Values(gs[1..])) == Last(Values(gs))
    ensures fields + [HexValue(gs[0])] + AllButLast(Values(gs[1..])) == fields + AllButLast(Values(gs))
  {
    ValuesStep(gs);
  }

  lemma OnlyValue(gs: seq<seq<Byte>>, fields: seq<Field>)
    requires |gs| == 1 && AreGroups(gs)
    ensures Last(Values(gs)) == HexValue(gs[0]) && fields + AllButLast(Values(gs)) == fields
  {
  }

  /** Groups with single colons between them are read field by field. */
  lemma {:induction false} ScanGroups(gs: seq<seq<Byte>>, rest: ZeroFree, fields: seq<Field>, dc: int)
    requires gs != [] && AreGroups(gs) && |fields| + |gs| <= 8 && -1 <= dc <= |fields|
    ensures 0 !in Join(gs, COLON)
    ensures Scan6(Join(gs, COLON) + rest, fields, 0, dc)
         == Scan6(rest, fields + AllButLast(Values(gs)), Last(Values(gs)), dc)
    decreases |gs|
  {
    hide Scan6, HexDigit, Last, AllButLast;
    var g := gs[0];
    JoinHasNoZero(gs, COLON);
    GroupHasNoZero(g);
    assert [] + g == g;
    if |gs| == 1 {
      ScanGroup([], g, rest, fields, dc);
      OnlyValue(gs, fields);
    } else {
      var tail := Join(gs[1..], COLON);
      JoinHasNoZero(gs[1..], COLON);
      assert Join(gs, COLON) + rest == g + ([COLON] + (tail + rest));
      ScanGroup([], g, [COLON] + (tail + rest), fields, dc);
      JoinStart(gs[1..]);
      ScanColon(tail + rest, fields, HexValue(g), dc);
      FirstValue(gs, fields);
      ScanGroups(gs[1..], rest, fields + [HexValue(g)], dc);
    }
  }

  /** A zero field beside the double colon is one more of its zeros. */
  lemma ExpandBesideZero(a: seq<Field>, b: seq<Field>)
    requires a != [] && |a| + |b| <= 8
    ensures Expand(a + b, |a|) == a + Zeros(8 - |a| - |b|) + b
    ensures Last(a) == 0 ==> Expand(a + b, |a| - 1) == a + Zeros(8 - |a| - |b|) + b
  {
    assert (a + b)[..|a|] == a && (a + b)[|a|..] == b;
    if Last(a) == 0 {
      var z := Zeros(8 - |a| - |b|);
      assert (a + b)[..|a| - 1] == AllButLast(a) && (a + b)[|a| - 1..] == [0] + b;
      assert z + [0] == [0] + z;
      assert a == AllButLast(a) + [0];
      assert AllButLast(a) + z + ([0] + b) == AllButLast(a) + (z + [0]) + b;
      assert AllButLast(a) + ([0] + z) + b == a + z + b;
    }
  }

  /** Every text of the two forms is accepted with the value it stands for. */
  lemma FullAccepted(text: ZeroFree, v: seq<Field>, gs: seq<seq<Byte>>)
    requires IsFull(text, v, gs)
    ensures Parse6(text) == Parsed(v)
  {
    hide Scan6, Join, AreGroups, Values;
    ScanLast(gs, [], -1);
    assert [] + AllButLast(v) + [Last(v)] == v;
  }

  lemma ScanEnd(fields: seq<Field>, acc: Field, dc: int)
    requires |fields| <= 7 && -1 <= dc <= |fields|
    ensures Scan6([], fields, acc, dc) == Scan(fields, acc, dc)
  {
  }

  lemma CompressedAccepted(text: ZeroFree, v: seq<Field>, gs: seq<seq<Byte>>, hs: seq<seq<Byte>>)
    requires IsCompressed(text, v, gs, hs)
    ensures Parse6(text) == Parsed(v)
  {
    hide Scan6, Join, AreGroups, Values, Expand;
    CompressedScan(gs, hs);
    ExpandBesideZero(Values(gs), Values(hs));
    assert Values(gs) + AllButLast(Values(hs)) + [Last(Values(hs))] == Values(gs) + Values(hs);
  }

  lemma CompressedScan(gs: seq<seq<Byte>>, hs: seq<seq<Byte>>)
    requires gs != [] && hs != [] && |gs| + |hs| <= 8
    requires AreGroups(gs) && AreGroups(hs) && (hs[0] == [] ==> |hs| == 1)
    ensures var text := Join(gs, COLON) + [COLON, COLON] + Join(hs, COLON);
            && 0 !in text
            && Scan6(text, [], 0, -1) == Scan(Values(gs) + AllButLast(Values(hs)), Last(Values(hs)),
                                              if Last(Values(gs)) == 0 then |gs| - 1 else |gs|)
  {
    hide Scan6, AreGroups, Values, Join;
    var left, right := Join(gs, COLON), Join(hs, COLON);
    JoinHasNoZero(gs, COLON);
    JoinHasNoZero(hs, COLON);
    assert left + [COLON, COLON] + right == left + ([COLON, COLON] + right);
    ScanGroups(gs, [COLON, COLON] + right, [], -1);
    assert [] + AllButLast(Values(gs)) == AllButLast(Values(gs));
    ScanRight(hs, Values(gs));
  }

  lemma RightStart(hs: seq<seq<Byte>>)
    requires hs != [] && AreGroups(hs)
    ensures (hs[0] == [] ==> |hs| == 1) <==> (Join(hs, COLON) == [] || Join(hs, COLON)[0] != COLON)
  {
    if hs[0] != [] {
      JoinStart(hs);
    }
  }

  lemma ScanLast(gs: seq<seq<Byte>>, fields: seq<Field>, dc: int)
    requires gs != [] && AreGroups(gs) && |fields| + |gs| <= 8 && -1 <= dc <= |fields|
    ensures 0 !in Join(gs, COLON)
    ensures Scan6(Join(gs, COLON), fields, 0, dc) == Scan(fields + AllButLast(Values(gs)), Last(Values(gs)), dc)
  {
    hide Scan6, AreGroups, Values, Join;
    assert Join(gs, COLON) + [] == Join(gs, COLON);
    ScanGroups(gs, [], fields, dc);
    ScanEnd(fields + AllButLast(Values(gs)), Last(Values(gs)), dc);
  }

  lemma ScanRight(hs: seq<seq<Byte>>, a: seq<Field>)
    requires a != [] && hs != [] && |a| + |hs| <= 8
    requires AreGroups(hs) && (hs[0] == [] ==> |hs| == 1)
    ensures 0 !in Join(hs, COLON)
    ensures Scan6([COLON, COLON] + Join(hs, COLON), AllButLast(a), Last(a), -1)
         == Scan(a + AllButLast(Values(hs)), Last(Values(hs)), if Last(a) == 0 then |a| - 1 else |a|)
  {
    hide Scan6, AreGroups, Values, Join, AllButLast, Last;
    SplitLast(a);
    var dc := if Last(a) == 0 then |a| - 1 else |a|;
    ScanLast(hs, a, dc);
    RightStart(hs);
    ScanDoubleColon(Join(hs, COLON), AllButLast(a), Last(a));
  }

  // -------------------------------------------- The IPv6 parser accepts nothing else

  /** A group before others that start with a group of their own. */
  lemma PrependGroup(p: seq<Byte>, gs: seq<seq<Byte>>, rest: seq<Byte>)
    requires IsGroup(p) && gs != [] && AreGroups(gs)
    requires rest != [] && rest[0] != COLON && (rest == Join(gs, COLON) || Join(gs, COLON) + [COLON] <= rest)
    ensures AreGroups([p] + gs) && Values([p] + gs) == [HexValue(p)] + Values(gs)
    ensures Join([p] + gs, COLON) == p + [COLON] + Join(gs, COLON)
  {
    var all := [p] + gs;
    assert all[1..] == gs;
    ValuesStep(all);
  }

  lemma OneGroup(p: seq<Byte>)
    requires IsGroup(p)
    ensures AreGroups([p]) && Values([p]) == [HexValue(p)] && Last(Values([p])) == HexValue(p) && Join([p], COLON) == p
  {
  }

  /** One step of the parser, by the next byte. */
  lemma ScanStep(rest: ZeroFree, fields: seq<Field>, acc: Field, dc: int)
    requires |fields| <= 7 && -1 <= dc <= |fields| && rest != []
    ensures HexDigit(rest[0]) >= 0 ==>
      Scan6(rest, fields, acc, dc) == var more := acc * 16 + HexDigit(rest[0]);
        if more > 0xFFFF then Bad(fields) else Scan6(rest[1..], fields, more, dc)
    ensures HexDigit(rest[0]) < 0 && rest[0] != COLON ==> Scan6(rest, fields, acc, dc) == Bad(fields)
    ensures rest[0] == COLON ==>
      Scan6(rest, fields, acc, dc) ==
        if |rest| == 1 || |fields| == 7 then Bad(fields)
        else if rest[1] != COLON then Scan6(rest[1..], fields + [acc], 0, dc)
        else if dc >= 0 || (|rest| > 2 && rest[2] == COLON) then Bad(fields)
        else Scan6(rest[2..], fields + [acc], 0, |fields| + (if acc == 0 then 0 else 1))
  {
  }

  lemma DigitStep(p: seq<Byte>, rest: ZeroFree, fields: seq<Field>, dc: int)
    requires IsGroup(p) && |fields| <= 7 && -1 <= dc <= |fields| && rest != [] && HexDigit(rest[0]) >= 0
    requires Scan6(rest, fields, HexValue(p), dc).Scan?
    ensures var q := p + [rest[0]];
            IsGroup(q) && Scan6(rest, fields, HexValue(p), dc) == Scan6(rest[1..], fields, HexValue(q), dc)
  {
    NumberAppend(p, rest[0], 16);
  }

  lemma ColonStep(acc: Field, rest: ZeroFree, fields: seq<Field>, dc: int)
    requires |fields| <= 7 && -1 <= dc <= |fields| && rest != [] && HexDigit(rest[0]) < 0
    requires Scan6(rest, fields, acc, dc).Scan?
    ensures rest[0] == COLON && |fields| < 7 && |rest| >= 2
    ensures if rest[1] != COLON then Scan6(rest, fields, acc, dc) == Scan6(rest[1..], fields + [acc], 0, dc)
            else && dc == -1 && (|rest| > 2 ==> rest[2] != COLON)
                 && Scan6(rest, fields, acc, dc).doubleColon >= 0
                 && Scan6(rest, fields, acc, dc)
                 == Scan6(rest[2..], fields + [acc], 0, |fields| + (if acc == 0 then 0 else 1))
  {
  }

  /** Without a double colon ahead, the rest of the text is groups with single colons between them. */
  lemma {:induction false} ScanTail(p: seq<Byte>, rest: ZeroFree, fields: seq<Field>, dc: int) returns (gs: seq<seq<Byte>>)
    requires IsGroup(p) && |fields| <= 7 && -1 <= dc <= |fields|
    requires Scan6(rest, fields, HexValue(p), dc).Scan?
    requires Scan6(rest, fields, HexValue(p), dc).doubleColon == dc
    ensures gs != [] && AreGroups(gs) && p + rest == Join(gs, COLON)
    ensures var r := Scan6(rest, fields, HexValue(p), dc); r.fields + [r.acc] == fields + Values(gs)
    decreases |rest|, 1
  {
    hide Scan6, Values, Join, AreGroups, HexDigit;
    if rest == [] {
      OneGroup(p);
      ScanEnd(fields, HexValue(p), dc);
      gs := [p];
      assert p + rest == p;
    } else if HexDigit(rest[0]) >= 0 {
      DigitStep(p, rest, fields, dc);
      gs := ScanTail(p + [rest[0]], rest[1..], fields, dc);
      assert p + rest == p + [rest[0]] + rest[1..];
    } else {
      ColonStep(HexValue(p), rest, fields, dc);
      gs := TailAfterColon(p, rest, fields, dc);
    }
  }

  lemma {:induction false} TailAfterColon(p: seq<Byte>, rest: ZeroFree, fields: seq<Field>, dc: int)
      returns (gs: seq<seq<Byte>>)
    requires IsGroup(p) && |fields| < 7 && -1 <= dc <= |fields|
    requires |rest| >= 2 && rest[0] == COLON && rest[1] != COLON
    requires Scan6(rest[1..], fields + [HexValue(p)], 0, dc).Scan?
    requires Scan6(rest[1..], fields + [HexValue(p)], 0, dc).doubleColon == dc
    ensures gs != [] && AreGroups(gs) && p + rest == Join(gs, COLON)
    ensures var r := Scan6(rest[1..], fields + [HexValue(p)], 0, dc); r.fields + [r.acc] == fields + Values(gs)
    decreases |rest|, 0
  {
    hide Scan6, Values, Join, AreGroups, HexDigit;
    gs := ScanTail([], rest[1..], fields + [HexValue(p)], dc);
    assert [] + rest[1..] == rest[1..];
    PrependGroup(p, gs, rest[1..]);
    assert fields + [HexValue(p)] + Values(gs) == fields + Values([p] + gs);
    gs := [p] + gs;
    assert rest == [COLON] + rest[1..];
    assert p + rest == p + [COLON] + rest[1..];
  }

  /** With one, groups stand before it and behind it. */
  lemma {:induction false} ScanForm(p: seq<Byte>, rest: ZeroFree, fields: seq<Field>)
      returns (gs: seq<seq<Byte>>, hs: seq<seq<Byte>>)
    requires IsGroup(p) && |fields| <= 7
    requires var r := Scan6(rest, fields, HexValue(p), -1); r.Scan? && r.doubleColon >= 0
    ensures Forms(p + rest, fields, Scan6(rest, fields, HexValue(p), -1), gs, hs)
    decreases |rest|, 1
  {
    hide Scan6, HexDigit, Forms;
    if rest == [] {
      ScanEnd(fields, HexValue(p), -1);
      assert false;
    } else if HexDigit(rest[0]) >= 0 {
      DigitStep(p, rest, fields, -1);
      gs, hs := ScanForm(p + [rest[0]], rest[1..], fields);
      assert p + rest == p + [rest[0]] + rest[1..];
    } else {
      ColonStep(HexValue(p), rest, fields, -1);
      if rest[1] == COLON {
        gs, hs := FormAtColons(p, rest, fields);
      } else {
        gs, hs := FormAfterColon(p, rest, fields);
      }
    }
  }

  ghost predicate Forms(text: seq<Byte>, fields: seq<Field>, r: Scan, gs: seq<seq<Byte>>, hs: seq<seq<Byte>>)
    requires r.Scan?
  {
    && gs != [] && hs != [] && AreGroups(gs) && AreGroups(hs)
    && (hs[0] == [] ==> |hs| == 1)
    && text == Join(gs, COLON) + [COLON, COLON] + Join(hs, COLON)
    && r.fields + [r.acc] == fields + Values(gs) + Values(hs)
    && r.doubleColon == |fields| + |gs| - (if Last(Values(gs)) == 0 then 1 else 0)
  }

  lemma {:induction false} FormAtColons(p: seq<Byte>, rest: ZeroFree, fields: seq<Field>)
      returns (gs: seq<seq<Byte>>, hs: seq<seq<Byte>>)
    requires IsGroup(p) && |fields| < 7
    requires |rest| >= 2 && rest[0] == COLON && rest[1] == COLON && (|rest| > 2 ==> rest[2] != COLON)
    requires Scan6(rest[2..], fields + [HexValue(p)], 0, |fields| + (if HexValue(p) == 0 then 0 else 1)).Scan?
    ensures Forms(p + rest, fields,
              Scan6(rest[2..], fields + [HexValue(p)], 0, |fields| + (if HexValue(p) == 0 then 0 else 1)), gs, hs)
  {
    hide Scan6, HexDigit, Values, AreGroups, Join;
    var dc := |fields| + (if HexValue(p) == 0 then 0 else 1);
    OneGroup(p);
    gs := [p];
    hs := ScanTail([], rest[2..], fields + [HexValue(p)], dc);
    assert [] + rest[2..] == rest[2..];
    RightStart(hs);
    assert rest == [COLON, COLON] + rest[2..];
    assert p + rest == Join(gs, COLON) + [COLON, COLON] + Join(hs, COLON);
  }

  lemma {:induction false} FormAfterColon(p: seq<Byte>, rest: ZeroFree, fields: seq<Field>)
      returns (gs: seq<seq<Byte>>, hs: seq<seq<Byte>>)
    requires IsGroup(p) && |fields| < 7 && |rest| >= 2 && rest[0] == COLON && rest[1] != COLON
    requires var r := Scan6(rest[1..], fields + [HexValue(p)], 0, -1); r.Scan? && r.doubleColon >= 0
    ensures Forms(p + rest, fields, Scan6(rest[1..], fields + [HexValue(p)], 0, -1), gs, hs)
    decreases |rest|, 0
  {
    hide Scan6, HexDigit, Values, AreGroups, Join;
    gs, hs := ScanForm([], rest[1..], fields + [HexValue(p)]);
    assert [] + rest[1..] == rest[1..];
    PrependGroup(p, gs, rest[1..]);
    Regroup(fields, [HexValue(p)], Values(gs));
    assert rest == [COLON] + rest[1..];
    Regroup(p, [COLON], rest[1..]);
    Regroup(p + [COLON], Join(gs, COLON), [COLON, COLON] + Join(hs, COLON));
    Regroup(Join(gs, COLON), [COLON, COLON], Join(hs, COLON));
    Regroup(p + [COLON] + Join(gs, COLON), [COLON, COLON], Join(hs, COLON));
    LastOfMore(p, gs);
    gs := [p] + gs;
  }

  lemma LastOfMore(p: seq<Byte>, gs: seq<seq<Byte>>)
    requires gs != [] && AreGroups(gs) && AreGroups([p] + gs)
    ensures Last(Values([p] + gs)) == Last(Values(gs))
  {
  }

  /** The parser accepts exactly the texts of the two forms, and gives each the value it stands for. */
  lemma Parse6Exact(text: ZeroFree, v: seq<Field>)
    ensures Parse6(text) == Parsed(v) <==>
      (exists gs :: IsFull(text, v, gs)) || (exists gs, hs :: IsCompressed(text, v, gs, hs))
  {
    hide Scan6, Values, AreGroups, Join, Expand;
    forall gs | IsFull(text, v, gs) ensures Parse6(text) == Parsed(v) {
      FullAccepted(text, v, gs);
    }
    forall gs, hs | IsCompressed(text, v, gs, hs) ensures Parse6(text) == Parsed(v) {
      CompressedAccepted(text, v, gs, hs);
    }
    if Parse6(text) == Parsed(v) {
      var r := Scan6(text, [], 0, -1);
      assert [] + text == text;
      assert HexValue([]) == 0;
      if r.doubleColon < 0 {
        var gs := ScanTail([], text, [], -1);
        assert IsFull(text, v, gs);
      } else {
        var gs, hs := ScanForm([], text, []);
        ExpandBesideZero(Values(gs), Values(hs));
        assert [] + Values(gs) == Values(gs);
        assert IsCompressed(text, v, gs, hs);
      }
    }
  }

  /** A single colon in front of seven groups is taken for a zero field, although section 2.2 of RFC
      4291 has no such form. */
  lemma LeadingColonAccepted(gs: seq<seq<Byte>>)
    requires |gs| == 7 && AreGroups(gs) && gs[0] != []
    ensures 0 !in [COLON] + Join(gs, COLON)
    ensures Parse6([COLON] + Join(gs, COLON)) == Parsed([0] + Values(gs))
  {
    var all := [[]] + gs;
    assert all[1..] == gs && HexValue([]) == 0;
    hide Scan6, Parse6;
    JoinHasNoZero(gs, COLON);
    ValuesStep(all);
    assert Join(all, COLON) == [COLON] + Join(gs, COLON);
    assert IsFull([COLON] + Join(gs, COLON), [0] + Values(gs), all);
    FullAccepted([COLON] + Join(gs, COLON), [0] + Values(gs), all);
  }

  // ------------------------------------------- Compression with a double colon

  function JoinAny(gs: seq<seq<Byte>>): seq<Byte> {
    if gs == [] then [] else Join(gs, COLON)
  }

  function AtLeastOne(n: nat): nat {
    if n == 0 then 1 else n
  }

  /** Exactly when a double colon is read as the missing zero fields: a side without groups still
      counts as one, so a single field can be left out between others but not at either end. */
  lemma DoubleColonExact(a: seq<seq<Byte>>, b: seq<seq<Byte>>)
    requires |a| + |b| <= 7 && AreGroups(a) && AreGroups(b)
    requires (a != [] ==> a[0] != []) && (b != [] ==> b[0] != [])
    ensures var text := JoinAny(a) + [COLON, COLON] + JoinAny(b);
            && 0 !in text
            && Parse6(text) == if AtLeastOne(|a|) + AtLeastOne(|b|) <= 7
                               then Parsed(Values(a) + Zeros(8 - |a| - |b|) + Values(b))
                               else Rejected
  {
    var gs, hs := Side(a), Side(b);
    SideValues(a);
    SideValues(b);
    hide Parse6, Join, JoinAny, AreGroups, Values, Side, Zeros;
    SidesExact(gs, hs);
    if |gs| + |hs| <= 7 {
      SameZeros(Values(a), Values(b), Values(gs), Values(hs));
    }
  }

  lemma SidesExact(gs: seq<seq<Byte>>, hs: seq<seq<Byte>>)
    requires gs != [] && hs != [] && |gs| + |hs| <= 8
    requires AreGroups(gs) && AreGroups(hs) && (hs[0] == [] ==> |hs| == 1)
    ensures var text := Join(gs, COLON) + [COLON, COLON] + Join(hs, COLON);
            && 0 !in text
            && Parse6(text) == if |gs| + |hs| <= 7 then Parsed(Values(gs) + Zeros(8 - |gs| - |hs|) + Values(hs))
                               else Rejected
  {
    hide Scan6, Join, AreGroups, Values, Expand, AllButLast, Last, Zeros;
    CompressedScan(gs, hs);
    if |gs| + |hs| <= 7 {
      var text := Join(gs, COLON) + [COLON, COLON] + Join(hs, COLON);
      CompressedAccepted(text, Values(gs) + Zeros(8 - |gs| - |hs|) + Values(hs), gs, hs);
    } else {
      OneShorter(Values(gs), Values(hs));
    }
  }

  lemma OneShorter(a: seq<Field>, b: seq<Field>)
    requires b != []
    ensures |a + AllButLast(b)| == |a| + |b| - 1
  {
  }

  /** The groups of one side as the parser counts them. */
  function Side(a: seq<seq<Byte>>): (gs: seq<seq<Byte>>)
    ensures gs != [] && |gs| == AtLeastOne(|a|)
  {
    if a == [] then [[]] else a
  }

  lemma SideValues(a: seq<seq<Byte>>)
    requires AreGroups(a) && (a != [] ==> a[0] != [])
    ensures AreGroups(Side(a)) && JoinAny(a) == Join(Side(a), COLON)
    ensures Side(a)[0] == [] ==> |Side(a)| == 1
    ensures Values(Side(a)) == if a == [] then [0] else Values(a)
  {
    assert HexValue([]) == 0;
  }

  lemma SameZeros(a: seq<Field>, b: seq<Field>, gs: seq<Field>, hs: seq<Field>)
    requires |a| + |b| <= 7 && |gs| + |hs| <= 7
    requires gs == (if a == [] then [0] else a) && hs == (if b == [] then [0] else b)
    ensures gs + Zeros(8 - |gs| - |hs|) + hs == a + Zeros(8 - |a| - |b|) + b
  {
  }
}
