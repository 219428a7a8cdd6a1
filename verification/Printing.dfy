/** Printing integers: the plain digit loop, and the form for 64-bit numbers that works in chunks
    which fit 16-bit arithmetic. */
module Printing {
  import opened Sequences

  const TWO_TO_32 := 0x1_0000_0000
  const TWO_TO_64 := 0x1_0000_0000_0000_0000

  // ---------------------------------------------------------------- Digits

  function Quotient(n: nat, base: nat): (q: nat)
    requires base >= 1
    ensures q * base <= n < (q + 1) * base
    ensures base >= 2 ==> q <= n && (n >= base ==> 1 <= q < n)
  {
    DivisionParts(n, base);
    n / base
  }

  lemma DivisionParts(n: nat, base: nat)
    requires base >= 1
    ensures n == (n / base) * base + n % base && 0 <= n / base
    ensures base >= 2 ==> n / base <= n && (n >= base ==> 1 <= n / base < n)
  {
    var q := n / base;
    assert n == q * base + n % base;
    if base >= 2 {
      assert q * 2 <= q * base;
      if n >= base && q == 0 {
        assert false;
      }
    }
  }

  /** The digits of `n`, the most significant first. */
  function Digits(n: nat, base: nat): seq<nat>
    requires base >= 2
  {
    if n < base then [n] else Digits(Quotient(n, base), base) + [n - Quotient(n, base) * base]
  }

  function Value(ds: seq<nat>, base: nat): nat {
    if ds == [] then 0 else Value(ds[..|ds| - 1], base) * base + ds[|ds| - 1]
  }

  ghost predicate IsNumeral(ds: seq<nat>, base: nat) {
    && ds != []
    && (forall i :: 0 <= i < |ds| ==> ds[i] < base)
    && (ds[0] == 0 ==> |ds| == 1)
  }

  lemma ProductGrows(a: nat, b: nat, c: nat)
    requires a < b
    ensures (a + 1) * c <= b * c
  {
    assert b * c == (a + 1) * c + (b - a - 1) * c;
  }

  lemma QuotientUnique(q: nat, base: nat, r: nat)
    requires r < base
    ensures Quotient(q * base + r, base) == q
  {
    hide Quotient;
    var other := Quotient(q * base + r, base);
    assert (q + 1) * base == q * base + base;
    if other < q {
      ProductGrows(other, q, base);
    } else if other > q {
      ProductGrows(q, other, base);
    }
  }

  /** The digits are a numeral without superfluous zeros, and they stand for `n`. */
  lemma {:induction false} DigitsValue(n: nat, base: nat)
    requires base >= 2
    ensures IsNumeral(Digits(n, base), base) && Value(Digits(n, base), base) == n
    ensures n > 0 ==> Digits(n, base)[0] > 0
  {
    hide Quotient;
    if n < base {
      assert Digits(n, base)[..0] == [];
    } else {
      var init := Digits(Quotient(n, base), base);
      DigitsValue(Quotient(n, base), base);
      assert Digits(n, base)[..|init|] == init;
    }
  }

  lemma {:induction false} ValuePositive(ds: seq<nat>, base: nat)
    requires base >= 2 && ds != [] && ds[0] > 0
    ensures Value(ds, base) > 0
  {
    if |ds| > 1 {
      ValuePositive(ds[..|ds| - 1], base);
    }
  }

  /** They are the only such numeral. */
  lemma {:induction false} DigitsUnique(ds: seq<nat>, base: nat)
    requires base >= 2 && IsNumeral(ds, base)
    ensures ds == Digits(Value(ds, base), base)
  {
    hide Quotient;
    var init, last := ds[..|ds| - 1], ds[|ds| - 1];
    if init == [] {
      assert Value(init, base) == 0;
      assert ds == [last];
    } else {
      DigitsUnique(init, base);
      ValuePositive(init, base);
      QuotientUnique(Value(init, base), base, last);
      assert ds == init + [last];
      ProductGrows(0, Value(init, base), base);
    }
  }

  function Power(base: nat, k: nat): nat {
    if k == 0 then 1 else base * Power(base, k - 1)
  }

  /** A number of `bits` bits has at most that many digits: `k + 1` digits need one of at least `base^k`. */
  lemma ManyDigits(n: nat, base: nat, k: nat, rest: nat, bits: nat)
    requires base >= 2 && rest >= 1 && rest * Power(base, k) <= n < Power(2, bits)
    ensures k < bits
  {
    PowerGrows(base, k);
    ProductGrows(0, rest, Power(base, k));
    if k >= bits {
      PowerMonotone(bits, k);
      assert false;
    }
  }

  lemma {:induction false} PowerGrows(base: nat, k: nat)
    requires base >= 2
    ensures 0 < Power(2, k) <= Power(base, k)
  {
    if k > 0 {
      PowerGrows(base, k - 1);
      assert 2 * Power(2, k - 1) <= base * Power(base, k - 1);
    }
  }

  lemma {:induction false} PowerMonotone(k: nat, m: nat)
    requires k <= m
    ensures Power(2, k) <= Power(2, m)
    decreases m
  {
    if k < m {
      PowerMonotone(k, m - 1);
    }
  }

  lemma MachineWords()
    ensures Power(2, 16) == 0x1_0000 && Power(2, 32) == TWO_TO_32 && Power(2, 64) == TWO_TO_64
  {
    assert Power(2, 8) == 256;
    hide Power;
    PowerSum(2, 8, 8);
    PowerSum(2, 16, 16);
    PowerSum(2, 32, 32);
  }

  lemma {:induction false} PowerSum(base: nat, j: nat, k: nat)
    ensures Power(base, j + k) == Power(base, j) * Power(base, k)
  {
    if j > 0 {
      PowerSum(base, j - 1, k);
      assert base * (Power(base, j - 1) * Power(base, k)) == (base * Power(base, j - 1)) * Power(base, k);
    }
  }

  // ------------------------------------------------------------------ Text

  /** The byte for one digit; bytes are unsigned. */
  function DigitByte(d: nat): Byte {
    (if d < 10 then '0' as int + d else 'A' as int + d - 10) % 0x100
  }

  function Text(ds: seq<nat>): seq<Byte> {
    seq(|ds|, i requires 0 <= i < |ds| => DigitByte(ds[i]))
  }

  /** What is left of a buffer when it is read as a string that ends at the first zero byte. */
  function CString(s: seq<Byte>): seq<Byte> {
    if s == [] || s[0] == 0 then [] else [s[0]] + CString(s[1..])
  }

  /** Exactly the digit 201 cuts a printed string short, so bases up to 201 are safe. */
  lemma {:induction false} WholeText(ds: seq<nat>)
    requires forall i :: 0 <= i < |ds| ==> ds[i] < 0x100
    ensures CString(Text(ds)) == Text(ds) <==> 201 !in ds
  {
    if ds != [] {
      assert Text(ds)[1..] == Text(ds[1..]);
      WholeText(ds[1..]);
      assert ds == [ds[0]] + ds[1..];
      assert Text(ds) == [DigitByte(ds[0])] + Text(ds[1..]);
      if 201 !in ds[1..] && ds[0] != 201 {
      } else if ds[0] == 201 {
        assert CString(Text(ds)) == [];
      } else {
        assert CString(Text(ds))[1..] == CString(Text(ds[1..]));
      }
    }
  }

  /** The fast form writes what the reference form writes, except where the digit 201 cuts the text of
      the latter short; that needs a base above 201. */
  lemma FastMatchesReference(n: nat, base: Byte)
    ensures var ds := Digits(n, EffectiveBase(base));
            && (CString(Text(ds)) == Text(ds) <==> 201 !in ds)
            && (EffectiveBase(base) <= 201 ==> CString(Text(ds)) == Text(ds))
  {
    var ds := Digits(n, EffectiveBase(base));
    DigitsValue(n, EffectiveBase(base));
    WholeText(ds);
  }

  function Reversed(s: seq<nat>): seq<nat> {
    if s == [] then [] else [s[|s| - 1]] + Reversed(s[..|s| - 1])
  }

  /** The base that is used: the argument in a byte, and ten when that is below two. */
  function EffectiveBase(base: int): (b: nat)
    ensures 2 <= b < 0x100
  {
    if base % 0x100 < 2 then 10 else base % 0x100
  }

  /** What the printers are for: `text` is the numeral of `n` in that base, ten for a base below two, with the
      digits from ten up as capital letters. */
  ghost predicate IsTextOf(text: seq<Byte>, n: nat, base: nat) {
    if base < 2 then IsNumeralText(text, n, 10) else IsNumeralText(text, n, base)
  }

  ghost predicate IsNumeralText(text: seq<Byte>, n: nat, base: nat) {
    exists ds :: IsTextOfDigits(text, ds, n, base)
  }

  ghost predicate IsTextOfDigits(text: seq<Byte>, ds: seq<nat>, n: nat, base: nat) {
    && IsNumeral(ds, base) && Value(ds, base) == n && |text| == |ds|
    && forall i :: 0 <= i < |ds| ==>
         text[i] == if ds[i] < 10 then '0' as int + ds[i] else ('A' as int - 10 + ds[i]) % 0x100
  }

  lemma DigitsAreText(n: nat, base: Byte)
    ensures IsTextOf(Text(Digits(n, EffectiveBase(base))), n, base)
  {
    DigitsValue(n, EffectiveBase(base));
    assert IsTextOfDigits(Text(Digits(n, EffectiveBase(base))), Digits(n, EffectiveBase(base)), n,
                          if base < 2 then 10 else base);
  }

  /** There is one such text. */
  lemma TextUnique(a: seq<Byte>, b: seq<Byte>, n: nat, base: Byte)
    requires IsTextOf(a, n, base) && IsTextOf(b, n, base)
    ensures a == b
  {
    var base' := if base < 2 then 10 else base;
    var ds :| IsTextOfDigits(a, ds, n, base');
    var es :| IsTextOfDigits(b, es, n, base');
    DigitsUnique(ds, base');
    DigitsUnique(es, base');
  }

  // --------------------------------------------------------------- Methods

  /** `rest` and the digits `ds` together are the number `n`. */
  ghost predicate Progress(n: nat, base: nat, rest: nat, ds: seq<nat>)
    requires base >= 2
  {
    rest * Power(base, |ds|) <= n && Digits(n, base) == Digits(rest, base) + ds
  }

  lemma OneDigitLess(rest: nat, q: nat, base: nat, k: nat)
    requires q * base <= rest
    ensures q * Power(base, k + 1) <= rest * Power(base, k)
  {
    var p, lower := Power(base, k), q * base;
    assert q * (base * p) == lower * p;
    assert rest * p == lower * p + (rest - lower) * p;
  }

  /** The last digit of the rest moves to the digits that are already known. */
  lemma OneDigit(n: nat, base: nat, rest: nat, ds: seq<nat>)
    requires base >= 2 && Progress(n, base, rest, ds)
    ensures var q := Quotient(rest, base);
            var more := [rest - q * base] + ds;
            if q == 0 then Digits(n, base) == more else Progress(n, base, q, more)
  {
    hide Quotient;
    var q := Quotient(rest, base);
    OneDigitLess(rest, q, base, |ds|);
    if q > 0 {
      assert rest >= base by { ProductGrows(0, q, base); }
      assert Digits(rest, base) + ds == Digits(q, base) + ([rest - q * base] + ds);
    }
  }

  lemma NoProgress(n: nat, base: nat)
    requires base >= 2
    ensures Progress(n, base, n, [])
  {
    assert Digits(n, base) == Digits(n, base) + [];
  }

  lemma Room(n: nat, base: nat, rest: nat, ds: seq<nat>, bits: nat)
    requires base >= 2 && Progress(n, base, rest, ds) && n < Power(2, bits) && rest > 0
    ensures |ds| < bits
  {
    ManyDigits(n, base, |ds|, rest, bits);
  }

  /** The number with the digits of `q` followed by `m` digits that are worth `r`. */
  function Joined(q: nat, base: nat, m: nat, r: nat): nat {
    q * Power(base, m) + r
  }

  lemma SplitQuotient(q: nat, base: nat, p: nat, r: nat)
    requires base >= 2 && r < base * p
    ensures var qq := Quotient(r, base);
            && qq < p
            && 0 <= r - qq * base < base
            && q * (base * p) + r == (q * p + qq) * base + (r - qq * base)
  {
    hide Quotient;
    var qq := Quotient(r, base);
    assert (qq + 1) * base == qq * base + base;
    if qq >= p {
      ProductMonotone(p, qq, base);
      assert false;
    }
    assert (q * p + qq) * base == q * (base * p) + qq * base;
  }

  lemma JoinedQuotient(q: nat, base: nat, m: nat, r: nat)
    requires base >= 2 && q >= 1 && m >= 1 && r < Power(base, m)
    ensures var qq, all := Quotient(r, base), Joined(q, base, m, r);
            && qq < Power(base, m - 1)
            && Quotient(all, base) == Joined(q, base, m - 1, qq) > 0
            && all - Quotient(all, base) * base == r - qq * base
  {
    hide Quotient;
    SplitQuotient(q, base, Power(base, m - 1), r);
    QuotientUnique(Joined(q, base, m - 1, Quotient(r, base)), base, r - Quotient(r, base) * base);
    JoinedPositive(q, base, m - 1, Quotient(r, base));
  }

  lemma JoinedPositive(q: nat, base: nat, m: nat, r: nat)
    requires base >= 2 && q >= 1
    ensures Joined(q, base, m, r) > 0
  {
    PowerGrows(base, m);
    ProductMonotone(1, q, Power(base, m));
  }

  lemma ProductMonotone(a: nat, b: nat, c: nat)
    requires a <= b
    ensures a * c <= b * c
  {
    assert b * c == a * c + (b - a) * c;
  }

  lemma SmallPower(base: nat, k: nat)
    requires base >= 2 && Power(base, k) <= 0xFFFF
    ensures k < 16
  {
    MachineWords();
    ManyDigits(0xFFFF, base, k, 1, 16);
  }

  /** The value from which `innerLoops` digits are split off at once: a power of the base that is
      not far below, and never above, what 16 bits hold. */
  method ChunkSize(base: nat) returns (th16: nat, innerLoops: nat)
    requires 2 <= base < 0x100
    ensures th16 == Power(base, innerLoops) && 1 <= innerLoops < 16
    ensures Quotient(0xFFFF, base) <= th16 <= 0xFFFF
  {
    hide Quotient;
    var top := Quotient(0xFFFF, base);
    if top < 2 {
      ProductMonotone(top + 1, 2, base);
      assert false;
    }
    th16, innerLoops := 1, 0;
    while th16 < top
      invariant th16 == Power(base, innerLoops) && 1 <= th16 <= 0xFFFF
      invariant innerLoops == 0 ==> th16 == 1
      decreases top - th16
    {
      ProductMonotone(th16, top, base);
      ProductMonotone(2, base, th16);
      th16 := th16 * base;
      innerLoops := innerLoops + 1;
    }
    SmallPower(base, innerLoops);
  }

  /** The inner loop: the digits of `r` go to the buffer, the last digit first, with leading zeros. */
  method Chunk(buf: array<nat>, start: nat, r: nat, base: nat, innerLoops: nat, ghost n: nat, ghost q: nat)
      returns (i: nat)
    requires 2 <= base < 0x100 && q >= 1 && r < Power(base, innerLoops) && n < Power(2, 64)
    requires start <= buf.Length == 64
    requires Progress(n, base, Joined(q, base, innerLoops, r), Reversed(buf[..start]))
    modifies buf
    ensures start + innerLoops == i <= 64
    ensures Progress(n, base, q, Reversed(buf[..i]))
  {
    hide Quotient, Progress, Power, Joined, Reversed;
    i := start;
    var rest: nat := r;
    for j := 0 to innerLoops
      invariant i == start + j <= 64
      invariant rest < Power(base, innerLoops - j)
      invariant Progress(n, base, Joined(q, base, innerLoops - j, rest), Reversed(buf[..i]))
    {
      ghost var m, before := innerLoops - j, buf[..i];
      ghost var all := Joined(q, base, m, rest);
      JoinedPositive(q, base, m, rest);
      ReversedAppend(before, rest - Quotient(rest, base) * base);
      Room(n, base, all, Reversed(before), 64);
      OneDigit(n, base, all, Reversed(before));
      JoinedQuotient(q, base, m, rest);
      var qq := Quotient(rest, base);
      buf[i] := rest - qq * base;
      assert buf[..i + 1] == before + [rest - qq * base];
      rest := qq;
      i := i + 1;
    }
    JoinedNothing(q, base, rest);
  }

  lemma JoinedNothing(q: nat, base: nat, r: nat)
    requires r < Power(base, 0)
    ensures Joined(q, base, 0, r) == q
  {
  }

  lemma ReversedAppend(s: seq<nat>, x: nat)
    ensures |Reversed(s)| == |s|
    ensures Reversed(s + [x]) == [x] + Reversed(s)
  {
    ReversedLength(s);
    assert (s + [x])[..|s|] == s;
  }

  lemma {:induction false} ReversedLength(s: seq<nat>)
    ensures |Reversed(s)| == |s|
  {
    if s != [] {
      ReversedLength(s[..|s| - 1]);
    }
  }

  /** A quotient by a power of the base, and its remainder, are a chunk. */
  lemma JoinedDivision(n: nat, base: nat, m: nat)
    requires base >= 2 && m >= 1 && n > Power(base, m) > 0
    ensures var th16 := Power(base, m);
            var q := Quotient(n, th16);
            && 1 <= q < n && 0 <= n - q * th16 < th16 && n == Joined(q, base, m, n - q * th16)
  {
    PowerGrows(base, m - 1);
    assert Power(base, m) >= 2 by {
      ProductMonotone(1, Power(base, m - 1), base);
    }
    hide Quotient;
    var th16 := Power(base, m);
    var q := Quotient(n, th16);
    assert (q + 1) * th16 == q * th16 + th16;
  }

  /** Chunk by chunk while the number is large: a non-zero rest of at most 16 bits is left over. */
  method FillChunks(buf: array<nat>, n64: nat, base: nat) returns (n16: nat, i: nat)
    requires 2 <= base < 0x100 && 0 < n64 < Power(2, 64) && buf.Length == 64
    modifies buf
    ensures i <= 64 && 0 < n16 <= 0xFFFF
    ensures Progress(n64, base, n16, Reversed(buf[..i]))
  {
    hide Quotient, Progress, Power, Joined, Digits, Reversed;
    i := 0;
    var th16, innerLoops := ChunkSize(base);
    n16 := n64;
    NoProgress(n64, base);
    NothingReversed(buf[..0]);
    while n16 > th16
      invariant 0 < n16 && i <= 64
      invariant Progress(n64, base, n16, Reversed(buf[..i]))
    {
      PowerGrows(base, innerLoops);
      JoinedDivision(n16, base, innerLoops);
      var q := Quotient(n16, th16);
      i := Chunk(buf, i, n16 - q * th16, base, innerLoops, n64, q);
      n16 := q;
    }
  }

  lemma NothingReversed(s: seq<nat>)
    requires s == []
    ensures Reversed(s) == []
  {
  }

  /** Then digit by digit: `buf[..i]` has the digits, the last one first. */
  method FillBuffer(n64: nat, base: nat) returns (buf: array<nat>, i: nat)
    requires 2 <= base < 0x100 && 0 < n64 < TWO_TO_64
    ensures fresh(buf) && i <= buf.Length == 64
    ensures Reversed(buf[..i]) == Digits(n64, base)
  {
    hide Quotient, Progress, Power, Digits, Reversed;
    MachineWords();
    buf := new nat[64];
    var n16: nat;
    n16, i := FillChunks(buf, n64, base);
    while n16 > 0
      invariant i <= 64
      invariant if n16 == 0 then Reversed(buf[..i]) == Digits(n64, base)
                else Progress(n64, base, n16, Reversed(buf[..i]))
    {
      ghost var before := buf[..i];
      ReversedAppend(before, n16 - Quotient(n16, base) * base);
      Room(n64, base, n16, Reversed(before), 64);
      OneDigit(n64, base, n16, Reversed(before));
      var qq := Quotient(n16, base);
      buf[i] := n16 - qq * base;
      assert buf[..i + 1] == before + [n16 - qq * base];
      n16 := qq;
      i := i + 1;
    }
  }

  lemma {:induction false} ZeroEnds(s: seq<Byte>)
    ensures CString(s + [0]) == CString(s)
  {
    if s != [] && s[0] != 0 {
      ZeroEnds(s[1..]);
      assert (s + [0])[1..] == s[1..] + [0];
    }
  }

  class Print {
    /** What has been written so far. */
    var out: seq<Byte>

    constructor ()
      ensures out == []
    {
      out := [];
    }

    method Write(c: Byte) returns (count: nat)
      modifies this
      ensures out == old(out) + [c] && count == 1
    {
      out := out + [c];
      count := 1;
    }

    /** write(const char *): the bytes before the first zero. */
    method WriteString(s: seq<Byte>) returns (count: nat)
      modifies this
      ensures out == old(out) + CString(s) && count == |CString(s)|
    {
      out := out + CString(s);
      count := |CString(s)|;
    }

    /** The digit loop that fills a buffer from its end; `bits` bits of buffer are always enough. */
    method PrintDigits(n: nat, base: Byte, bits: nat) returns (count: nat)
      requires bits >= 1 && n < Power(2, bits)
      modifies this
      ensures var s := CString(Text(Digits(n, EffectiveBase(base)))); out == old(out) + s && count == |s|
      ensures exists text :: IsTextOf(text, n, base) && out == old(out) + CString(text)
    {
      hide Quotient, Progress, Digits, Power;
      var buf := new Byte[bits + 1];
      var str := bits;
      buf[str] := 0;
      var b := EffectiveBase(base);
      var rest: nat := n;
      ghost var ds: seq<nat> := [];
      NoProgress(n, b);
      while true
        invariant 0 <= str <= bits && fresh(buf) && unchanged(this)
        invariant rest > 0 || str == bits
        invariant Progress(n, b, rest, ds)
        invariant |ds| == bits - str && buf[str..] == Text(ds) + [0]
        decreases str
      {
        if rest > 0 {
          Room(n, b, rest, ds, bits);
        }
        OneDigit(n, b, rest, ds);
        var t := Quotient(rest, b);
        var c := rest - t * b;
        str := str - 1;
        buf[str] := DigitByte(c);
        rest := t;
        ds := [c] + ds;
        assert buf[str..] == Text(ds) + [0];
        if rest == 0 {
          break;
        }
      }
      count := WriteString(buf[str..]);
      ZeroEnds(Text(ds));
      DigitsAreText(n, base);
    }

    /** The reference form for 64-bit numbers. */
    method PrintULLReference(n: nat, base: Byte) returns (count: nat)
      requires n < TWO_TO_64
      modifies this
      ensures var s := CString(Text(Digits(n, EffectiveBase(base)))); out == old(out) + s && count == |s|
      ensures exists text :: IsTextOf(text, n, base) && out == old(out) + CString(text)
    {
      MachineWords();
      count := PrintDigits(n, base, 64);
    }

    /** The fast form writes the digits for every 64-bit number and every base, and returns how many
        there are. */
    method PrintULLNumber(n64: nat, base: Byte) returns (bytes: nat)
      requires n64 < TWO_TO_64
      modifies this
      ensures var ds := Digits(n64, EffectiveBase(base)); out == old(out) + Text(ds) && bytes == |ds| <= 64
      ensures exists text :: IsTextOf(text, n64, base) && out == old(out) + text && bytes == |text|
    {
      DigitsAreText(n64, base);
      if n64 == 0 {
        var _ := Write('0' as int);
        return 1;
      }
      var buf, i := FillBuffer(n64, EffectiveBase(base));
      hide Digits, Quotient;
      ReversedLength(buf[..i]);
      WriteBuffer(buf, i);
      bytes := i;
    }

    method WriteBuffer(buf: array<nat>, count: nat)
      requires count <= buf.Length
      modifies this
      ensures out == old(out) + Text(Reversed(buf[..count]))
    {
      ghost var text := Text(Reversed(buf[..count]));
      var i := count;
      while i > 0
        invariant i <= count
        invariant out + Text(Reversed(buf[..i])) == old(out) + text
      {
        assert buf[..i][..i - 1] == buf[..i - 1];
        assert Text(Reversed(buf[..i])) == [DigitByte(buf[i - 1])] + Text(Reversed(buf[..i - 1]));
        var _ := Write(DigitByte(buf[i - 1]));
        i := i - 1;
      }
    }

    /** printNumber: 32-bit numbers. */
    method PrintNumber(n: nat, base: Byte) returns (count: nat)
      requires n < TWO_TO_32
      modifies this
      ensures var s := CString(Text(Digits(n, EffectiveBase(base)))); out == old(out) + s && count == |s|
      ensures exists text :: IsTextOf(text, n, base) && out == old(out) + CString(text)
    {
      MachineWords();
      count := PrintDigits(n, base, 32);
    }

    /** print(long, int): decimal numbers have a sign, other bases show the 32-bit pattern, and base 0
        writes the low byte itself. */
    method PrintLong(n: int, base: int) returns (count: nat)
      requires -0x8000_0000 <= n < 0x8000_0000
      modifies this
      ensures out == old(out) + LongText(n, base) && count == |LongText(n, base)|
    {
      hide Digits, CString, Text, Wrapped;
      if base == 0 {
        count := Write(n % 0x100);
      } else if base == 10 {
        var t := 0;
        var m := n;
        if n < 0 {
          t := Write('-' as int);
          m := Wrapped(-n);
        }
        SignedText(n);
        count := PrintNumber(m % TWO_TO_32, 10);
        count := count + t;
      } else {
        count := PrintNumber(n % TWO_TO_32, base % 0x100);
      }
    }
  }

  /** A value as a 32-bit signed number. */
  function Wrapped(n: int): (r: int)
    ensures -0x8000_0000 <= r < 0x8000_0000
    ensures (r - n) % TWO_TO_32 == 0
  {
    (n + 0x8000_0000) % TWO_TO_32 - 0x8000_0000
  }

  /** The decimal text of a number with its sign. */
  function Signed(n: int): seq<Byte> {
    if n < 0 then ['-' as int] + Text(Digits(-n, 10)) else Text(Digits(n, 10))
  }

  function LongText(n: int, base: int): seq<Byte> {
    if base == 0 then [n % 0x100]
    else if base == 10 then Signed(n)
    else CString(Text(Digits(n % TWO_TO_32, EffectiveBase(base))))
  }

  /** What print(long, int) is to write. */
  ghost predicate IsLongText(text: seq<Byte>, n: int, base: int) {
    if base == 0 then text == [n % 0x100]
    else if base != 10 then CutText(text, n % 0x1_0000_0000, base % 0x100)
    else if n < 0 then text != [] && text[0] == '-' as int && IsTextOf(text[1..], -n, 10)
    else IsTextOf(text, n, 10)
  }

  /** The numeral as far as its first zero byte. */
  ghost predicate CutText(text: seq<Byte>, n: nat, base: nat) {
    exists whole :: IsTextOf(whole, n, base) && text == CString(whole)
  }

  lemma LongTextMeans(n: int, base: int)
    ensures IsLongText(LongText(n, base), n, base)
  {
    hide Digits, Text, IsTextOf;
    if base == 10 {
      DigitsAreText(if n < 0 then -n else n, 10);
      EffectiveTen();
      if n < 0 {
        assert Signed(n)[1..] == Text(Digits(-n, 10));
      }
    } else if base != 0 {
      DigitsAreText(n % TWO_TO_32, base % 0x100);
      EffectiveOfByte(base);
    }
  }

  lemma EffectiveTen()
    ensures EffectiveBase(10) == 10
  {
  }

  lemma EffectiveOfByte(base: int)
    ensures EffectiveBase(base) == EffectiveBase(base % 0x100)
  {
  }

  lemma SignedText(n: int)
    requires -0x8000_0000 <= n < 0x8000_0000
    ensures n < 0 ==> Wrapped(-n) % TWO_TO_32 == -n
    ensures var m := if n < 0 then -n else n; CString(Text(Digits(m, 10))) == Text(Digits(m, 10))
  {
    var m := if n < 0 then -n else n;
    DigitsValue(m, 10);
    WholeText(Digits(m, 10));
  }
}
