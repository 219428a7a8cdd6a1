/** The dotted decimal form of IPv4 addresses and its parser. */
module DottedText {
  import opened Sequences
  import opened Printing
  import opened AddressText

  predicate IsDecimal(g: seq<Byte>) {
    IsHex(g) && forall i :: 0 <= i < |g| ==> HexDigit(g[i]) < 10
  }

  /** Decimal digits with a value that fits a byte. */
  predicate IsPart(g: seq<Byte>) {
    IsDecimal(g) && Number(g, 10) < 0x100
  }

  predicate AreParts(gs: seq<seq<Byte>>) {
    forall i :: 0 <= i < |gs| ==> gs[i] != [] && IsPart(gs[i])
  }

  function PartValues(gs: seq<seq<Byte>>): (v: seq<Byte>)
    requires AreParts(gs)
    ensures |v| == |gs|
  {
    seq(|gs|, i requires 0 <= i < |gs| => Number(gs[i], 10))
  }

  /** How far the IPv4 parser gets: the parts before the dots so far, and the part being read (-1
      before its first digit); or the parts before it gave up. */
  datatype Scan4Result = Scan4Result(parts: seq<Byte>, acc: int) | Bad4(parts: seq<Byte>)

  function Scan4(rest: ZeroFree, parts: seq<Byte>, acc: int): (r: Scan4Result)
    requires |parts| <= 3 && -1 <= acc < 0x100
    ensures |r.parts| <= 3 && (r.Scan4Result? ==> -1 <= r.acc < 0x100)
    decreases |rest|
  {
    if rest == [] then Scan4Result(parts, acc)
    else if 0 <= HexDigit(rest[0]) < 10 then
      var more := if acc < 0 then HexDigit(rest[0]) else acc * 10 + HexDigit(rest[0]);
      if more > 255 then Bad4(parts) else Scan4(rest[1..], parts, more)
    else if rest[0] != DOT || |parts| == 3 || acc < 0 then Bad4(parts)
    else Scan4(rest[1..], parts + [acc], -1)
  }

  function Finish4(r: Scan4Result): Parsed<seq<Byte>>
    requires r.Scan4Result? ==> r.acc < 0x100
  {
    if r.Bad4? || |r.parts| != 3 || r.acc < 0 then Rejected else Parsed(r.parts + [r.acc])
  }

  function Parse4(text: ZeroFree): Parsed<seq<Byte>> {
    Finish4(Scan4(text, [], -1))
  }

  /** Four parts, none empty, with dots between them. */
  predicate IsDotted(text: seq<Byte>, v: seq<Byte>, gs: seq<seq<Byte>>) {
    |gs| == 4 && AreParts(gs) && text == Join(gs, DOT) && v == PartValues(gs)
  }

  function Acc(p: seq<Byte>): (acc: int)
    requires IsPart(p)
    ensures -1 <= acc < 0x100
  {
    if p == [] then -1 else Number(p, 10)
  }

  lemma DecimalStep(p: seq<Byte>, rest: ZeroFree, parts: seq<Byte>)
    requires IsPart(p) && |parts| <= 3 && rest != [] && 0 <= HexDigit(rest[0]) < 10
    ensures var q := p + [rest[0]];
            && IsDecimal(q)
            && Scan4(rest, parts, Acc(p)) == if IsPart(q) then Scan4(rest[1..], parts, Acc(q)) else Bad4(parts)
  {
    NumberAppend(p, rest[0], 10);
    if p == [] {
      assert Number(p, 10) == 0;
    }
  }

  lemma DotStep(rest: ZeroFree, parts: seq<Byte>, acc: int)
    requires |parts| < 3 && 0 <= acc < 0x100 && 0 !in rest
    ensures Scan4([DOT] + rest, parts, acc) == Scan4(rest, parts + [acc], -1)
  {
    assert ([DOT] + rest)[1..] == rest;
  }

  /** The digits of one part are read. */
  lemma {:induction false} ScanPart(p: seq<Byte>, g: seq<Byte>, rest: ZeroFree, parts: seq<Byte>)
    requires IsPart(p + g) && |parts| <= 3 && 0 !in g
    ensures IsPart(p) && Scan4(g + rest, parts, Acc(p)) == Scan4(rest, parts, Acc(p + g))
    decreases |g|
  {
    hide Scan4, Number, HexDigit, Acc;
    PartStart(p, g);
    if g == [] {
      assert p + g == p && g + rest == rest;
    } else {
      var q := p + [g[0]];
      assert p + g == q + g[1..];
      PartStart(q, g[1..]);
      assert (p + g)[|p|] == g[0];
      DecimalStep(p, g + rest, parts);
      assert (g + rest)[1..] == g[1..] + rest;
      ScanPart(q, g[1..], rest, parts);
    }
  }

  lemma PartStart(p: seq<Byte>, g: seq<Byte>)
    requires IsPart(p + g)
    ensures IsPart(p)
  {
    NumberGrows(p, g, 10);
    assert forall i :: 0 <= i < |p| ==> p[i] == (p + g)[i];
  }

  lemma PartStep(gs: seq<seq<Byte>>)
    requires gs != [] && AreParts(gs)
    ensures AreParts(gs[1..]) && PartValues(gs) == [Number(gs[0], 10)] + PartValues(gs[1..])
  {
    assert forall i :: 0 <= i < |gs[1..]| ==> gs[1..][i] == gs[i + 1];
  }

  lemma {:induction false} DottedBytes(gs: seq<seq<Byte>>)
    requires gs != [] && AreParts(gs)
    ensures 0 !in Join(gs, DOT) && COLON !in Join(gs, DOT)
  {
    GroupHasNoZero(gs[0]);
    if |gs| > 1 {
      PartStep(gs);
      DottedBytes(gs[1..]);
    }
  }

  lemma {:induction false} ScanParts(gs: seq<seq<Byte>>, parts: seq<Byte>)
    requires gs != [] && AreParts(gs) && |parts| + |gs| <= 4
    ensures 0 !in Join(gs, DOT)
    ensures var r := Scan4(Join(gs, DOT), parts, -1);
            r.Scan4Result? && r.acc >= 0 && r.parts + [r.acc] == parts + PartValues(gs)
    decreases |gs|
  {
    hide Scan4, Number, HexDigit;
    var g := gs[0];
    DottedBytes(gs);
    GroupHasNoZero(g);
    assert [] + g == g;
    if |gs| == 1 {
      ScanPart([], g, [], parts);
      assert g + [] == g;
      ScanDone(parts, Number(g, 10));
      assert PartValues(gs) == [Number(g, 10)];
    } else {
      var tail := Join(gs[1..], DOT);
      PartStep(gs);
      DottedBytes(gs[1..]);
      assert Join(gs, DOT) == g + ([DOT] + tail);
      ScanPart([], g, [DOT] + tail, parts);
      DotStep(tail, parts, Number(g, 10));
      ScanParts(gs[1..], parts + [Number(g, 10)]);
      assert parts + [Number(g, 10)] + PartValues(gs[1..]) == parts + PartValues(gs);
    }
  }

  lemma ScanDone(parts: seq<Byte>, acc: int)
    requires |parts| <= 3 && -1 <= acc < 0x100
    ensures Scan4([], parts, acc) == Scan4Result(parts, acc)
  {
  }

  /** Whatever is read to the end is parts with dots between them. */
  lemma {:induction false} ScanDots(p: seq<Byte>, rest: ZeroFree, parts: seq<Byte>) returns (gs: seq<seq<Byte>>)
    requires IsPart(p) && |parts| <= 3
    requires var r := Scan4(rest, parts, Acc(p)); r.Scan4Result? && r.acc >= 0
    ensures gs != [] && AreParts(gs) && p + rest == Join(gs, DOT)
    ensures var r := Scan4(rest, parts, Acc(p)); r.parts + [r.acc] == parts + PartValues(gs)
    decreases |rest|
  {
    hide Scan4, Number, HexDigit, Acc, AreParts, PartValues, Join;
    if rest == [] {
      ScanDone(parts, Acc(p));
      OnePart(p);
      gs := [p];
      assert p + rest == p;
    } else if 0 <= HexDigit(rest[0]) < 10 {
      DecimalStep(p, rest, parts);
      gs := ScanDots(p + [rest[0]], rest[1..], parts);
      assert p + rest == p + [rest[0]] + rest[1..];
    } else {
      OtherStep(rest, parts, Acc(p));
      OnePart(p);
      NoPart();
      gs := ScanDots([], rest[1..], parts + [Acc(p)]);
      assert [] + rest[1..] == rest[1..];
      assert rest == [DOT] + rest[1..];
      PrependPart(p, gs);
      assert parts + [Acc(p)] + PartValues(gs) == parts + PartValues([p] + gs);
      gs := [p] + gs;
      assert p + rest == p + [DOT] + rest[1..];
    }
  }

  lemma NoPart()
    ensures IsPart([]) && Acc([]) == -1
  {
  }

  lemma OnePart(p: seq<Byte>)
    requires IsPart(p)
    ensures if p == [] then Acc(p) == -1
            else AreParts([p]) && Acc(p) >= 0 && PartValues([p]) == [Acc(p)] && Join([p], DOT) == p
  {
  }

  lemma OtherStep(rest: ZeroFree, parts: seq<Byte>, acc: int)
    requires |parts| <= 3 && -1 <= acc < 0x100 && rest != [] && !(0 <= HexDigit(rest[0]) < 10)
    requires Scan4(rest, parts, acc).Scan4Result?
    ensures rest[0] == DOT && |parts| < 3 && acc >= 0
    ensures Scan4(rest, parts, acc) == Scan4(rest[1..], parts + [acc], -1)
  {
  }

  lemma PrependPart(p: seq<Byte>, gs: seq<seq<Byte>>)
    requires IsPart(p) && p != [] && gs != [] && AreParts(gs)
    ensures AreParts([p] + gs) && PartValues([p] + gs) == [Acc(p)] + PartValues(gs)
    ensures Join([p] + gs, DOT) == p + [DOT] + Join(gs, DOT)
  {
    assert ([p] + gs)[1..] == gs;
    PartStep([p] + gs);
  }

  /** The parser accepts exactly the dotted texts, and gives each the value it stands for. */
  lemma Parse4Exact(text: ZeroFree, v: seq<Byte>)
    ensures Parse4(text) == Parsed(v) <==> exists gs :: IsDotted(text, v, gs)
  {
    forall gs | IsDotted(text, v, gs) ensures Parse4(text) == Parsed(v) {
      ScanParts(gs, []);
      assert [] + PartValues(gs) == PartValues(gs);
    }
    if Parse4(text) == Parsed(v) {
      assert Number([], 10) == 0;
      var gs := ScanDots([], text, []);
      assert [] + text == text && [] + PartValues(gs) == PartValues(gs);
      assert IsDotted(text, v, gs);
    }
  }
}
