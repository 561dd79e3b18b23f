/** IPv4 addresses in common.sh: validation and the two conversions between dotted quads and
    numbers, at string level. */
module Ipv4 {

  import opened Text
  import opened Wrappers

  /* ---------- numerals ---------- */

  predicate IsDigit(c: char) {
    '0' <= c <= '9'
  }

  predicate Digits(s: string) {
    s != "" && forall c | c in s :: IsDigit(c)
  }

  /** Numerals written without a superfluous zero in front. */
  predicate Canonical(s: string) {
    Digits(s) && (|s| > 1 ==> s[0] != '0')
  }

  function DigitValue(c: char): int {
    c as int - '0' as int
  }

  function DigitOf(n: nat): char
    requires n < 10
  {
    ('0' as int + n) as char
  }

  function ValueIn(base: nat, s: string): int {
    if s == "" then 0 else base * ValueIn(base, s[..|s| - 1]) + DigitValue(s[|s| - 1])
  }

  /** What [ "$n" -gt 255 ] compares: always decimal. */
  function Decimal(s: string): int {
    ValueIn(10, s)
  }

  /** What $(( )) makes of a numeral: a leading zero means octal, and a digit above 7 is then
      an error. */
  function Arithmetic(s: string): Option<int> {
    if |s| > 1 && s[0] == '0' then
      (if exists c :: c in s && c > '7' then None else Some(ValueIn(8, s)))
    else Some(Decimal(s))
  }

  function ToDecimal(n: nat): string {
    if n < 10 then [DigitOf(n)] else ToDecimal(n / 10) + [DigitOf(n % 10)]
  }

  lemma {:induction false} ToDecimalCanonical(n: nat)
    ensures Canonical(ToDecimal(n)) && Decimal(ToDecimal(n)) == n
    ensures n > 0 ==> ToDecimal(n)[0] != '0'
    ensures n < 10 <==> |ToDecimal(n)| <= 1
    ensures n < 100 <==> |ToDecimal(n)| <= 2
    ensures n < 1000 <==> |ToDecimal(n)| <= 3
  {
    if n >= 10 {
      ToDecimalCanonical(n / 10);
      var s := ToDecimal(n);
      assert s[..|s| - 1] == ToDecimal(n / 10);
    } else {
      assert ToDecimal(n)[..0] == "" && ValueIn(10, "") == 0;
    }
  }

  lemma DigitBack(c: char)
    requires IsDigit(c)
    ensures 0 <= DigitValue(c) < 10 && DigitOf(DigitValue(c)) == c
  {
  }

  lemma ToDecimalMore(v: nat, d: nat)
    requires v > 0 && d < 10
    ensures ToDecimal(10 * v + d) == ToDecimal(v) + [DigitOf(d)]
  {
  }

  lemma DecimalUnfold(s: string)
    requires s != ""
    ensures Decimal(s) == 10 * Decimal(s[..|s| - 1]) + DigitValue(s[|s| - 1])
    ensures |s| == 1 ==> Decimal(s) == DigitValue(s[0])
  {
    assert |s| == 1 ==> s[..0] == "" && ValueIn(10, "") == 0;
  }

  lemma {:induction false} DecimalCanonical(s: string)
    requires Canonical(s)
    ensures Decimal(s) >= 0 && ToDecimal(Decimal(s)) == s
    ensures s[0] != '0' ==> Decimal(s) > 0
  {
    var n := |s| - 1;
    assert s[n] in s;
    DigitBack(s[n]);
    DecimalUnfold(s);
    if n > 0 {
      var init := s[..n];
      forall c | c in init ensures IsDigit(c) { assert c in s; }
      hide ToDecimal, Decimal, DigitValue;
      DecimalCanonical(init);
      ToDecimalMore(Decimal(init), DigitValue(s[n]));
      assert s == init + [s[n]];
    } else {
      assert s == [s[0]];
    }
  }

  lemma {:induction false} DecimalNonNegative(s: string)
    requires Digits(s)
    ensures Decimal(s) >= 0
  {
    var n := |s| - 1;
    assert s[n] in s;
    if n == 0 {
      assert s[..0] == "" && ValueIn(10, "") == 0;
    } else {
      forall c | c in s[..n] ensures IsDigit(c) { assert c in s; }
      DecimalNonNegative(s[..n]);
    }
  }

  /* ---------- dotted text ---------- */

  /** awk -F . : the fields between the dots. */
  function Fields(s: string): (f: seq<string>)
    ensures f != []
    decreases |s|
  {
    var n := Find(s, '.');
    if n == |s| then [s] else [s[..n]] + Fields(s[n + 1..])
  }

  function Dotted(fields: seq<string>): string
    requires fields != []
  {
    if |fields| == 1 then fields[0] else fields[0] + "." + Dotted(fields[1..])
  }

  lemma DottedMore(field: string, fields: seq<string>)
    requires fields != []
    ensures Dotted([field] + fields) == field + "." + Dotted(fields)
  {
    assert ([field] + fields)[1..] == fields;
  }

  lemma FieldsUnfold(s: string)
    ensures var n := Find(s, '.');
            && (n == |s| ==> Fields(s) == [s])
            && (n < |s| ==> s == s[..n] + "." + s[n + 1..] && Fields(s) == [s[..n]] + Fields(s[n + 1..]))
  {
    AroundDot(s);
  }

  lemma AroundDot(s: string)
    ensures var n := Find(s, '.'); n < |s| ==> s == s[..n] + "." + s[n + 1..]
  {
    var n := Find(s, '.');
    if n < |s| {
      CutAt(s, n);
      assert [s[n]] == ".";
    }
  }

  lemma CutAt(s: string, n: nat)
    requires n < |s|
    ensures s == s[..n] + [s[n]] + s[n + 1..]
  {
  }

  lemma {:induction false} DottedFields(s: string)
    ensures Dotted(Fields(s)) == s
    decreases |s|
  {
    FieldsUnfold(s);
    hide Fields, Dotted;
    var n := Find(s, '.');
    if n < |s| {
      DottedFields(s[n + 1..]);
      DottedMore(s[..n], Fields(s[n + 1..]));
    } else {
      DottedOne(s);
    }
  }

  lemma DottedOne(s: string)
    ensures Dotted([s]) == s
  {
  }

  lemma FieldFirst(field: string, rest: string)
    requires '.' !in field
    ensures Fields(field) == [field]
    ensures Fields(field + "." + rest) == [field] + Fields(rest)
  {
    var tail := "." + rest;
    FindOf(field, '.', "");
    FindOf(field, '.', tail);
    assert field + "" == field && field + "." + rest == field + tail;
    assert (field + tail)[..|field|] == field && (field + tail)[|field| + 1..] == rest;
  }

  lemma {:induction false} FieldsDotted(fields: seq<string>)
    requires fields != [] && forall f | f in fields :: '.' !in f
    ensures Fields(Dotted(fields)) == fields
  {
    hide Fields;
    var rest := fields[1..];
    assert fields[0] in fields && fields == [fields[0]] + rest && forall f | f in rest :: f in fields;
    if |fields| == 1 {
      FieldFirst(fields[0], "");
    } else {
      FieldsDotted(rest);
      FieldFirst(fields[0], Dotted(rest));
    }
  }

  /* ---------- the script's functions ---------- */

  predicate IsByte(field: string) {
    Digits(field) && |field| <= 3 && Decimal(field) <= 255
  }

  /** Four groups of one to three digits, none above 255. */
  predicate IsQuad(text: string) {
    var f := Fields(text);
    |f| == 4 && IsByte(f[0]) && IsByte(f[1]) && IsByte(f[2]) && IsByte(f[3])
  }

  /** An address validate_ipv4 accepts: it looks at what echo makes of the argument, so blanks around
      the address, and options of echo before it, do not matter. */
  predicate Valid(s: string) {
    IsQuad(Echo(s))
  }

  /** Four numerals with dots between, each of one to three digits and not above 255. */
  predicate FourNumerals(text: string, a: string, b: string, c: string, d: string) {
    && text == a + "." + b + "." + c + "." + d
    && forall n | n in [a, b, c, d] :: 1 <= |n| <= 3 && (forall x | x in n :: '0' <= x <= '9') && Decimal(n) <= 255
  }

  lemma ValidIff(s: string)
    ensures Valid(s) <==> exists a, b, c, d :: FourNumerals(Echo(s), a, b, c, d)
  {
    hide Echo, Fields, Dotted, ValueIn;
    var text := Echo(s);
    var f := Fields(text);
    DottedFields(text);
    if Valid(s) {
      assert f == [f[0], f[1], f[2], f[3]];
      FourDotted(f[0], f[1], f[2], f[3]);
      assert FourNumerals(text, f[0], f[1], f[2], f[3]);
    }
    if a, b, c, d :| FourNumerals(text, a, b, c, d) {
      var g := [a, b, c, d];
      assert a in g && b in g && c in g && d in g;
      FourDotted(a, b, c, d);
      FieldsDotted(g);
    }
  }

  lemma FourDotted(a: string, b: string, c: string, d: string)
    ensures Dotted([a, b, c, d]) == a + "." + b + "." + c + "." + d
  {
    assert [a, b, c, d] == [a] + [b, c, d] && [b, c, d] == [b] + [c, d] && [c, d] == [c] + [d];
    hide Dotted;
    DottedOne(d);
    DottedMore(c, [d]);
    DottedMore(b, [c, d]);
    DottedMore(a, [b, c, d]);
    assert a + "." + (b + "." + (c + "." + d)) == a + "." + b + "." + c + "." + d;
  }

  /** validate_ipv4: the pattern first, then the range of each field. */
  method ValidateIpv4(s: string) returns (status: int)
    ensures status == 0 || status == 1
    ensures status == 0 <==> Valid(s)
    ensures status == 0 <==> exists a, b, c, d :: FourNumerals(Echo(s), a, b, c, d)
  {
    ValidIff(s);
    hide Fields, Echo, FourNumerals;
    var f := Fields(Echo(s));
    if |f| != 4 || exists i | 0 <= i < 4 :: !(Digits(f[i]) && |f[i]| <= 3) {
      return 1;
    }
    for i := 0 to 4
      invariant forall k | 0 <= k < i :: Decimal(f[k]) <= 255
    {
      if Decimal(f[i]) > 255 || Decimal(f[i]) < 0 {
        DecimalNonNegative(f[i]);
        return 1;
      }
    }
    return 0;
  }

  function FieldAt(s: string, i: nat): string {
    if i < |Fields(s)| then Fields(s)[i] else ""
  }

  /** ipaddr2number: the first field of what echo prints is the least significant byte. */
  function ToNumber(s: string): Option<int> {
    var e := Echo(s);
    var a, b := Arithmetic(FieldAt(e, 0)), Arithmetic(FieldAt(e, 1));
    var c, d := Arithmetic(FieldAt(e, 2)), Arithmetic(FieldAt(e, 3));
    if a.None? || b.None? || c.None? || d.None? then None
    else Some(d.value * 0x100_0000 + c.value * 0x1_0000 + b.value * 0x100 + a.value)
  }

  /** number2ipaddr: the top field is shifted but not masked. */
  function ToAddress(n: nat): string {
    Dotted([ToDecimal(n % 0x100), ToDecimal(n / 0x100 % 0x100), ToDecimal(n / 0x1_0000 % 0x100),
            ToDecimal(n / 0x100_0000)])
  }

  predicate CanonicalQuad(s: string) {
    forall f | f in Fields(s) :: Canonical(f)
  }

  lemma ToAddressFields(n: nat)
    ensures Fields(ToAddress(n)) ==
            [ToDecimal(n % 0x100), ToDecimal(n / 0x100 % 0x100), ToDecimal(n / 0x1_0000 % 0x100),
             ToDecimal(n / 0x100_0000)]
    ensures CanonicalQuad(ToAddress(n))
  {
    var parts := [n % 0x100, n / 0x100 % 0x100, n / 0x1_0000 % 0x100, n / 0x100_0000];
    var f := [ToDecimal(parts[0]), ToDecimal(parts[1]), ToDecimal(parts[2]), ToDecimal(parts[3])];
    forall i | 0 <= i < 4 ensures Canonical(f[i]) && '.' !in f[i] {
      ToDecimalCanonical(parts[i]);
    }
    FieldsDotted(f);
  }

  lemma ByteSplit(n: nat)
    ensures n == (n / 0x100_0000) * 0x100_0000 + (n / 0x1_0000 % 0x100) * 0x1_0000
                 + (n / 0x100 % 0x100) * 0x100 + n % 0x100
  {
    var m := n / 0x100;
    var k := m / 0x100;
    HighBytes(n);
    assert n == m * 0x100 + n % 0x100 && m == k * 0x100 + m % 0x100 && k == (k / 0x100) * 0x100 + k % 0x100;
  }

  lemma QuadNumber(s: string, a: int, b: int, c: int, d: int)
    requires Echo(s) == s && |Fields(s)| == 4
    requires Arithmetic(Fields(s)[0]) == Some(a) && Arithmetic(Fields(s)[1]) == Some(b)
    requires Arithmetic(Fields(s)[2]) == Some(c) && Arithmetic(Fields(s)[3]) == Some(d)
    ensures ToNumber(s) == Some(d * 0x100_0000 + c * 0x1_0000 + b * 0x100 + a)
  {
  }

  lemma {:induction false} CanonicalIsWord(fields: seq<string>)
    requires fields != [] && forall f | f in fields :: Canonical(f)
    ensures BlankFree(Dotted(fields)) && Dotted(fields) != "" && Dotted(fields)[0] != '-'
  {
    var rest := fields[1..];
    assert fields[0] in fields && fields[0][0] in fields[0] && forall f | f in rest :: f in fields;
    if |fields| > 1 {
      CanonicalIsWord(rest);
      forall c | c in Dotted(fields) ensures !IsBlank(c) {
        assert c in fields[0] || c == '.' || c in Dotted(rest);
      }
    }
  }

  /** Canonical text is not changed by echo. */
  lemma EchoCanonical(s: string)
    requires CanonicalQuad(s)
    ensures Echo(s) == s
  {
    hide Echo;
    DottedFields(s);
    CanonicalIsWord(Fields(s));
    EchoWord(s);
  }

  lemma Numeral(n: nat)
    ensures var t := ToDecimal(n);
            Arithmetic(t) == Some(n) && (IsByte(t) <==> n <= 255)
  {
    ToDecimalCanonical(n);
  }

  lemma QuadRange(text: string, a: nat, b: nat, c: nat, d: nat)
    requires Fields(text) == [ToDecimal(a), ToDecimal(b), ToDecimal(c), ToDecimal(d)]
    requires a <= 255 && b <= 255 && c <= 255
    ensures IsQuad(text) <==> d <= 255
  {
    Numeral(a);
    Numeral(b);
    Numeral(c);
    Numeral(d);
    hide Fields, ToDecimal, IsByte, Arithmetic;
    var f := Fields(text);
    assert f[0] == ToDecimal(a) && f[1] == ToDecimal(b) && f[2] == ToDecimal(c) && f[3] == ToDecimal(d);
  }

  /** Every number below 2^32, and no other, becomes an acceptable address; the way back always
      restores it. */
  lemma NumberRoundTrip(n: nat)
    ensures Valid(ToAddress(n)) <==> n < 0x1_0000_0000
    ensures ToNumber(ToAddress(n)) == Some(n)
  {
    var a, b, c, d := n % 0x100, n / 0x100 % 0x100, n / 0x1_0000 % 0x100, n / 0x100_0000;
    ToAddressFields(n);
    EchoCanonical(ToAddress(n));
    hide ToAddress, ToDecimal, Fields, CanonicalQuad, Echo, IsByte, Arithmetic, IsQuad;
    Numeral(a);
    Numeral(b);
    Numeral(c);
    Numeral(d);
    QuadNumber(ToAddress(n), a, b, c, d);
    ByteSplit(n);
    QuadRange(ToAddress(n), a, b, c, d);
  }

  lemma CanonicalDotless(s: string)
    requires Canonical(s)
    ensures '.' !in s
  {
  }

  lemma FourCanonical(a: string, b: string, c: string, d: string)
    requires Canonical(a) && Canonical(b) && Canonical(c) && Canonical(d)
    ensures var text := a + "." + b + "." + c + "." + d;
            Echo(text) == text && Fields(text) == [a, b, c, d]
  {
    hide Echo, Fields, Dotted, Canonical;
    var f := [a, b, c, d];
    forall n | n in f ensures '.' !in n {
      CanonicalDotless(n);
    }
    FourDotted(a, b, c, d);
    FieldsDotted(f);
    assert CanonicalQuad(Dotted(f));
    EchoCanonical(Dotted(f));
  }

  /** The first field is the least significant. */
  lemma FieldWeights(a: nat, b: nat, c: nat, d: nat)
    ensures ToNumber(ToDecimal(a) + "." + ToDecimal(b) + "." + ToDecimal(c) + "." + ToDecimal(d))
            == Some(a + 0x100 * b + 0x1_0000 * c + 0x100_0000 * d)
  {
    hide *;
    Numerals(a);
    Numerals(b);
    Numerals(c);
    Numerals(d);
    FourWeights(ToDecimal(a), ToDecimal(b), ToDecimal(c), ToDecimal(d), a, b, c, d);
  }

  lemma FourWeights(r: string, s: string, t: string, u: string, a: int, b: int, c: int, d: int)
    requires Canonical(r) && Canonical(s) && Canonical(t) && Canonical(u)
    requires Arithmetic(r) == Some(a) && Arithmetic(s) == Some(b)
    requires Arithmetic(t) == Some(c) && Arithmetic(u) == Some(d)
    ensures ToNumber(r + "." + s + "." + t + "." + u) == Some(a + 0x100 * b + 0x1_0000 * c + 0x100_0000 * d)
  {
    hide *;
    FourCanonical(r, s, t, u);
    QuadNumber(r + "." + s + "." + t + "." + u, a, b, c, d);
  }

  lemma Numerals(n: nat)
    ensures Canonical(ToDecimal(n)) && Arithmetic(ToDecimal(n)) == Some(n)
  {
    ToDecimalCanonical(n);
    Numeral(n);
  }

  /** A field with a zero in front is read in base eight, and is an error if it cannot be. */
  lemma ZeroMeansOctal(d: nat, e: nat)
    requires d < 10 && e < 10
    ensures Arithmetic(['0', DigitOf(d)]) == if d < 8 then Some(d) else None
    ensures Arithmetic(['0', DigitOf(d), DigitOf(e)]) == if d < 8 && e < 8 then Some(8 * d + e) else None
  {
    var s := ['0', DigitOf(d), DigitOf(e)];
    assert s[..2] == ['0', DigitOf(d)] && s[..2][..1] == ['0'] && ['0'][..0] == [];
    assert ValueIn(8, []) == 0;
    assert ValueIn(8, ['0']) == 0;
    assert ValueIn(8, s[..2]) == d;
    assert s[1] in s && s[2] in s && s[1] in s[..2];
    assert (exists c :: c in s && c > '7') <==> d >= 8 || e >= 8;
    assert (exists c :: c in s[..2] && c > '7') <==> d >= 8;
  }

  lemma LowByte(a: nat, m: nat)
    requires a <= 255
    ensures (m * 0x100 + a) % 0x100 == a && (m * 0x100 + a) / 0x100 == m
  {
  }

  lemma CombineBytes(a: nat, b: nat, c: nat, d: nat)
    requires a <= 255 && b <= 255 && c <= 255
    ensures var n := d * 0x100_0000 + c * 0x1_0000 + b * 0x100 + a;
            n % 0x100 == a && n / 0x100 % 0x100 == b && n / 0x1_0000 % 0x100 == c && n / 0x100_0000 == d
  {
    var k := d * 0x100 + c;
    var m := k * 0x100 + b;
    LowByte(a, m);
    LowByte(b, k);
    LowByte(c, d);
    HighBytes(m * 0x100 + a);
  }

  lemma HighBytes(n: nat)
    ensures n / 0x1_0000 == n / 0x100 / 0x100 && n / 0x100_0000 == n / 0x100 / 0x100 / 0x100
  {
  }

  /** For an accepted address the round trip restores the text exactly when it is nothing but four
      fields without superfluous zeros in front. */
  lemma AddressRoundTrip(s: string)
    requires Valid(s)
    ensures (ToNumber(s).Some? && ToNumber(s).value >= 0 && ToAddress(ToNumber(s).value) == s)
            <==> CanonicalQuad(s)
  {
    hide Echo, ToDecimal, ValueIn, Fields, Dotted;
    if CanonicalQuad(s) {
      EchoCanonical(s);
      var f := Fields(s);
      forall i | 0 <= i < 4
        ensures Decimal(f[i]) >= 0 && ToDecimal(Decimal(f[i])) == f[i]
                && Arithmetic(f[i]) == Some(Decimal(f[i]))
      {
        assert f[i] in f;
        DecimalCanonical(f[i]);
      }
      CombineBytes(Decimal(f[0]), Decimal(f[1]), Decimal(f[2]), Decimal(f[3]));
      DottedFields(s);
      assert f == [f[0], f[1], f[2], f[3]];
    } else if ToNumber(s).Some? && ToNumber(s).value >= 0 {
      ToAddressFields(ToNumber(s).value);
    }
  }
}
