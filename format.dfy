/** The little text formatting the coordinators need: ASCII literals turned
    into bytes, and the `%d` verb of fmt.Sprintf on non-negative integers,
    which is how the default registry names its keys and addresses. */
module Format {
  import opened Sharding

  /** The bytes of an ASCII string literal. */
  function Ascii(s: string): Bytes
    requires forall i :: 0 <= i < |s| ==> s[i] as int < 0x80
  {
    seq(|s|, i requires 0 <= i < |s| => s[i] as int as byte)
  }

  predicate IsDigit(b: byte)
  {
    '0' as int <= b as int <= '9' as int
  }

  function DigitByte(d: nat): byte
    requires d < 10
  {
    ('0' as int + d) as byte
  }

  /** `%d` of a non-negative integer: its decimal digits, most significant
      first, with no leading zero. */
  function Decimal(n: nat): (r: Bytes)
    ensures 1 <= |r|
    ensures forall i :: 0 <= i < |r| ==> IsDigit(r[i])
    ensures n >= 10 ==> r[0] != DigitByte(0)
    decreases n
  {
    if n < 10 then [DigitByte(n)] else Decimal(n / 10) + [DigitByte(n % 10)]
  }

  /** Reads a string of decimal digits back as the number it denotes. */
  function ParseDecimal(ds: Bytes): nat
    requires forall i :: 0 <= i < |ds| ==> IsDigit(ds[i])
  {
    if ds == [] then 0
    else
      var last := ds[|ds| - 1];
      assert IsDigit(last);
      ParseDecimal(ds[..|ds| - 1]) * 10 + (last as int - '0' as int)
  }

  /** Formatting with `%d` loses nothing: parsing gives the number back. */
  lemma {:induction false} ParseDecimalOfDecimal(n: nat)
    ensures ParseDecimal(Decimal(n)) == n
    decreases n
  {
    if n >= 10 {
      var d := Decimal(n);
      assert d[..|d| - 1] == Decimal(n / 10);
      ParseDecimalOfDecimal(n / 10);
    }
  }

  /** Distinct numbers format to distinct texts. */
  lemma DecimalInjective(n: nat, m: nat)
    requires Decimal(n) == Decimal(m)
    ensures n == m
  {
    ParseDecimalOfDecimal(n);
    ParseDecimalOfDecimal(m);
  }

  /** fmt.Sprintf(prefix + "%d%d", a, b). */
  function Format2(prefix: Bytes, a: nat, b: nat): Bytes
  {
    prefix + Decimal(a) + Decimal(b)
  }

  /** When the second number is a single digit, the formatted text determines
      both numbers. */
  lemma Format2Injective(prefix: Bytes, a: nat, b: nat, a': nat, b': nat)
    requires b < 10 && b' < 10
    requires Format2(prefix, a, b) == Format2(prefix, a', b')
    ensures a == a' && b == b'
  {
    var t, t' := Format2(prefix, a, b), Format2(prefix, a', b');
    assert Decimal(b) == [DigitByte(b)] && Decimal(b') == [DigitByte(b')];
    assert t[|t| - 1] == DigitByte(b) && t'[|t'| - 1] == DigitByte(b');
    assert t[|prefix|..|t| - 1] == Decimal(a);
    assert t'[|prefix|..|t'| - 1] == Decimal(a');
    DecimalInjective(a, a');
  }
}
