/**
 How a registration number is written and compared: the series format, stripping, and the key
 under which the registry records it as occupied.
 */
module NumberFormat {
  import opened Prelude

  const MAX_NUMBER_LENGTH: nat := 255

  /** A format as `string.Formatter().parse` yields it. */
  datatype Segment = Text(text: string) | Ordinal | Period | Prefix | Suffix | Code

  datatype Layout = Layout(format: seq<Segment>, prefix: string, suffix: string, code: string, padding: nat)

  /** How many ordinal placeholders a format has. */
  function OrdinalCount(format: seq<Segment>): nat {
    if format == [] then 0 else (if format[0].Ordinal? then 1 else 0) + OrdinalCount(format[1..])
  }

  predicate LayoutOk(layout: Layout) {
    OrdinalCount(layout.format) == 1
  }

  // ---------------------------------------------------------------------------
  // Decimal digits
  // ---------------------------------------------------------------------------

  predicate IsDigit(c: char) {
    '0' <= c <= '9'
  }

  function Digit(n: nat): (c: char)
    requires n < 10
    ensures IsDigit(c) && c as int - '0' as int == n
  {
    '0' + n as char
  }

  /** `str(n)`. */
  function Decimal(n: nat): string {
    if n < 10 then [Digit(n)] else Decimal(n / 10) + [Digit(n % 10)]
  }

  function Zeros(n: nat): string {
    if n == 0 then "" else Zeros(n - 1) + "0"
  }

  /** `str(n).zfill(width)`. */
  function Padded(n: nat, width: nat): string {
    var text := Decimal(n);
    if |text| >= width then text else Zeros(width - |text|) + text
  }

  ghost predicate AllDigits(s: string) {
    forall i :: 0 <= i < |s| ==> IsDigit(s[i])
  }

  ghost function Value(s: string): nat
    requires AllDigits(s)
  {
    if s == "" then 0 else 10 * Value(s[..|s| - 1]) + (s[|s| - 1] as int - '0' as int)
  }

  lemma {:induction false} DecimalValue(n: nat)
    ensures Decimal(n) != "" && AllDigits(Decimal(n)) && Value(Decimal(n)) == n
  {
    if n < 10 {
      assert Decimal(n)[..0] == "";
    } else {
      DecimalValue(n / 10);
      assert Decimal(n)[..|Decimal(n)| - 1] == Decimal(n / 10);
    }
  }

  lemma {:induction false} ZerosDigits(n: nat)
    ensures |Zeros(n)| == n && AllDigits(Zeros(n)) && Value(Zeros(n)) == 0
  {
    if n > 0 {
      ZerosDigits(n - 1);
      assert Zeros(n)[..n - 1] == Zeros(n - 1);
    }
  }

  lemma {:induction false} LeadingZeros(n: nat, s: string)
    requires AllDigits(s)
    ensures AllDigits(Zeros(n) + s) && Value(Zeros(n) + s) == Value(s)
    decreases |s|
  {
    ZerosDigits(n);
    if s == "" {
      assert Zeros(n) + s == Zeros(n);
    } else {
      var k := |s| - 1;
      LeadingZeros(n, s[..k]);
      assert (Zeros(n) + s)[..n + k] == Zeros(n) + s[..k];
    }
  }

  lemma {:induction false} PaddedValue(n: nat, width: nat)
    ensures Padded(n, width) != "" && AllDigits(Padded(n, width)) && Value(Padded(n, width)) == n
  {
    DecimalValue(n);
    if |Decimal(n)| < width {
      LeadingZeros(width - |Decimal(n)|, Decimal(n));
    }
  }

  // ---------------------------------------------------------------------------
  // Stripping and keys
  // ---------------------------------------------------------------------------

  function StripLeft(s: string): string {
    if s != "" && IsSpace(s[0]) then StripLeft(s[1..]) else s
  }

  function StripRight(s: string): string {
    if s != "" && IsSpace(s[|s| - 1]) then StripRight(s[..|s| - 1]) else s
  }

  /** `s.strip()`, and `btrim` with the same characters. */
  function Strip(s: string): string {
    StripRight(StripLeft(s))
  }

  /** Lower case of the Latin and Russian letters. */
  function Lower(c: char): char {
    if 'A' <= c <= 'Z' || '\U{410}' <= c <= '\U{42f}' then c + 32 as char
    else if '\U{400}' <= c <= '\U{40f}' then c + 80 as char
    else c
  }

  function LowerAll(s: string): string {
    seq(|s|, i requires 0 <= i < |s| => Lower(s[i]))
  }

  /** The occupancy key of a number; None when nothing is left of it. */
  function NumberKey(number: string): Option<string> {
    var key := LowerAll(Strip(number));
    if key == "" then None else Some(key)
  }

  /** A format with its placeholders filled in. */
  function Expand(layout: Layout, format: seq<Segment>, period: string, ordinal: string): string {
    if format == [] then ""
    else
      (match format[0]
       case Text(text) => text
       case Ordinal => ordinal
       case Period => period
       case Prefix => layout.prefix
       case Suffix => layout.suffix
       case Code => layout.code) +
      Expand(layout, format[1..], period, ordinal)
  }

  /** `render_number`: None when the result is longer than 255 characters. */
  function Render(layout: Layout, period: string, ordinal: nat): Option<string> {
    var text := Expand(layout, layout.format, period, Padded(ordinal, layout.padding));
    if |text| > MAX_NUMBER_LENGTH then None else Some(text)
  }

  /** The number offered for an ordinal: rendered and stripped. */
  function NumberOf(layout: Layout, period: string, ordinal: nat): string {
    Strip(Expand(layout, layout.format, period, Padded(ordinal, layout.padding)))
  }

  // ---------------------------------------------------------------------------
  // Different ordinals have different numbers and keys
  // ---------------------------------------------------------------------------

  /** What stands before and after the only ordinal placeholder. */
  lemma {:induction false} AroundOrdinal(layout: Layout, format: seq<Segment>, period: string)
      returns (before: string, after: string)
    requires OrdinalCount(format) <= 1
    ensures OrdinalCount(format) == 1 ==>
              forall z :: Expand(layout, format, period, z) == before + z + after
    ensures OrdinalCount(format) == 0 ==>
              forall z :: Expand(layout, format, period, z) == before
    decreases |format|
  {
    if format == [] {
      before, after := "", "";
    } else {
      var b, a := AroundOrdinal(layout, format[1..], period);
      if format[0].Ordinal? {
        before, after := "", b;
        forall z
          ensures Expand(layout, format, period, z) == before + z + after
        {
          assert Expand(layout, format, period, z) == z + Expand(layout, format[1..], period, z);
        }
      } else {
        var first := match format[0]
          case Text(text) => text
          case Period => period
          case Prefix => layout.prefix
          case Suffix => layout.suffix
          case Code => layout.code
          case Ordinal => "";
        before, after := first + b, a;
        forall z
          ensures Expand(layout, format, period, z) == first + Expand(layout, format[1..], period, z)
        {
        }
        if OrdinalCount(format) == 1 {
          forall z
            ensures Expand(layout, format, period, z) == before + z + after
          {
            assert Expand(layout, format, period, z) == first + (b + z + a);
          }
        }
      }
    }
  }

  lemma {:induction false} StripLeftKeeps(a: string, z: string)
    requires z != "" && !IsSpace(z[0])
    ensures StripLeft(a + z) == StripLeft(a) + z
    decreases |a|
  {
    if a == "" {
      assert a + z == z;
    } else {
      assert (a + z)[0] == a[0];
      if IsSpace(a[0]) {
        assert (a + z)[1..] == a[1..] + z;
        StripLeftKeeps(a[1..], z);
      }
    }
  }

  lemma {:induction false} StripRightKeeps(z: string, b: string)
    requires z != "" && !IsSpace(z[|z| - 1])
    ensures StripRight(z + b) == z + StripRight(b)
    decreases |b|
  {
    if b == "" {
      assert z + b == z;
    } else {
      assert (z + b)[|z + b| - 1] == b[|b| - 1];
      if IsSpace(b[|b| - 1]) {
        assert (z + b)[..|z + b| - 1] == z + b[..|b| - 1];
        StripRightKeeps(z, b[..|b| - 1]);
      }
    }
  }

  lemma {:induction false} StripAround(a: string, z: string, b: string)
    requires z != "" && AllDigits(z)
    ensures Strip(a + z + b) == StripLeft(a) + z + StripRight(b)
  {
    assert IsDigit(z[0]) && IsDigit(z[|z| - 1]);
    assert a + z + b == a + (z + b);
    StripLeftKeeps(a, z + b);
    assert StripLeft(a) + (z + b) == (StripLeft(a) + z) + b;
    StripRightKeeps(StripLeft(a) + z, b);
  }

  lemma {:induction false} StrippedEnds(s: string)
    ensures StripRight(s) != "" ==> !IsSpace(StripRight(s)[|StripRight(s)| - 1])
    ensures StripRight(s) <= s
    decreases |s|
  {
    if s != "" && IsSpace(s[|s| - 1]) {
      StrippedEnds(s[..|s| - 1]);
    }
  }

  lemma {:induction false} StrippedStart(s: string)
    ensures StripLeft(s) != "" ==> !IsSpace(StripLeft(s)[0])
    decreases |s|
  {
    if s != "" && IsSpace(s[0]) {
      StrippedStart(s[1..]);
    }
  }

  lemma {:induction false} StripTwice(s: string)
    ensures Strip(Strip(s)) == Strip(s)
  {
    var left := StripLeft(s);
    StrippedStart(s);
    StrippedEnds(left);
  }

  /** The key of an offered number: the lower-cased surroundings with the digits between. */
  lemma {:induction false} KeyAround(layout: Layout, period: string, before: string, after: string, ordinal: nat)
    requires forall z :: Expand(layout, layout.format, period, z) == before + z + after
    ensures var z := Padded(ordinal, layout.padding);
            NumberKey(NumberOf(layout, period, ordinal)) ==
            Some(LowerAll(StripLeft(before)) + z + LowerAll(StripRight(after)))
  {
    var z := Padded(ordinal, layout.padding);
    PaddedValue(ordinal, layout.padding);
    StripAround(before, z, after);
    StripTwice(before + z + after);
    var text := StripLeft(before) + z + StripRight(after);
    assert forall i :: 0 <= i < |z| ==> IsDigit(z[i]) && Lower(z[i]) == z[i];
    assert LowerAll(text) == LowerAll(StripLeft(before)) + z + LowerAll(StripRight(after));
  }

  /** In one series and period no two ordinals share a key, so none share a number. */
  lemma {:induction false} KeyInjective(layout: Layout, period: string, x: nat, y: nat)
    requires LayoutOk(layout)
    ensures NumberKey(NumberOf(layout, period, x)).Some?
    ensures NumberKey(NumberOf(layout, period, x)) == NumberKey(NumberOf(layout, period, y)) <==> x == y
    ensures NumberOf(layout, period, x) == NumberOf(layout, period, y) <==> x == y
  {
    var before, after := AroundOrdinal(layout, layout.format, period);
    KeyAround(layout, period, before, after, x);
    KeyAround(layout, period, before, after, y);
    PaddedValue(x, layout.padding);
    PaddedValue(y, layout.padding);
    var head := LowerAll(StripLeft(before));
    var zx, zy := Padded(x, layout.padding), Padded(y, layout.padding);
    if NumberKey(NumberOf(layout, period, x)) == NumberKey(NumberOf(layout, period, y)) {
      SameMiddle(head, zx, zy, LowerAll(StripRight(after)));
    }
  }

  lemma {:induction false} SameMiddle(a: string, x: string, y: string, b: string)
    requires a + x + b == a + y + b
    ensures x == y
  {
    assert |x| == |y|;
    forall i | 0 <= i < |x|
      ensures x[i] == y[i]
    {
      assert (a + x + b)[|a| + i] == x[i];
      assert (a + y + b)[|a| + i] == y[i];
    }
  }
}
