/** sds.h: the length and allocation fields of a dynamic string, packed in front of its data.
    Byte-level model for a little-endian machine with 64-bit size_t. */
module Sds {

  type byte = b: int | 0 <= b < 0x100

  const SIZE_T_RANGE := 0x1_0000_0000_0000_0000

  type size_t = n: int | 0 <= n < 0x1_0000_0000_0000_0000

  /* ---------- little-endian integers ---------- */

  function Range(width: nat): (r: nat)
    ensures r > 0
  {
    if width == 0 then 1 else 0x100 * Range(width - 1)
  }

  lemma RangeValues()
    ensures Range(1) == 0x100 && Range(2) == 0x1_0000
    ensures Range(4) == 0x1_0000_0000 && Range(8) == SIZE_T_RANGE
  {
    assert Range(3) == 0x100 * Range(2);
    assert Range(4) == 0x100 * Range(3);
    assert Range(5) == 0x100 * Range(4);
    assert Range(6) == 0x100 * Range(5);
    assert Range(7) == 0x100 * Range(6);
  }

  function Encode(n: nat, width: nat): (bs: seq<byte>)
    ensures |bs| == width
  {
    if width == 0 then [] else [n % 0x100] + Encode(n / 0x100, width - 1)
  }

  function Decode(bs: seq<byte>): nat {
    if bs == [] then 0 else bs[0] + 0x100 * Decode(bs[1..])
  }

  lemma {:induction false} MultipleIsLarge(m: nat, k: nat)
    requires k > 0
    ensures m * k >= m
  {
    if k > 1 {
      MultipleIsLarge(m, k - 1);
    }
    assert m * k == m * (k - 1) + m;
  }

  /** Quotient and remainder are unique. */
  lemma ModIs(n: nat, m: nat, a: nat, b: nat)
    requires 0 <= b < m && n == m * a + b
    ensures n % m == b
  {
    var q := n / m;
    var r := n % m;
    assert n == m * q + r;
    if q > a {
      assert m * (q - a) == m * q - m * a;
      MultipleIsLarge(m, q - a);
    } else if a > q {
      assert m * (a - q) == m * a - m * q;
      MultipleIsLarge(m, a - q);
    }
  }

  /** Storing a number in `width` bytes and reading it back truncates it to that width. */
  lemma {:induction false} DecodeEncode(n: nat, width: nat)
    ensures Decode(Encode(n, width)) == n % Range(width)
  {
    if width > 0 {
      var q, p := n / 0x100, Range(width - 1);
      DecodeEncode(q, width - 1);
      assert Encode(n, width)[1..] == Encode(q, width - 1);
      ModTimes(n, p);
    }
  }

  /** The low byte and the rest reduce separately. */
  lemma ModTimes(n: nat, p: nat)
    requires p > 0
    ensures n % 0x100 + 0x100 * ((n / 0x100) % p) == n % (0x100 * p)
  {
    var q := n / 0x100;
    var a := q / p;
    var b := q % p;
    assert q == p * a + b;
    assert n == 0x100 * q + n % 0x100;
    assert 0x100 * (p * a) == (0x100 * p) * a;
    ModIs(n, 0x100 * p, a, n % 0x100 + 0x100 * b);
  }

  lemma DecodeOne(a: byte)
    ensures Decode([a]) == a
  {
    assert [a][1..] == [];
  }

  lemma DecodeTwo(a: byte, b: byte)
    ensures Decode([a, b]) == a + 0x100 * b
  {
    assert [a, b][1..] == [b];
    DecodeOne(b);
  }

  lemma {:induction false} DecodeBound(bs: seq<byte>)
    ensures Decode(bs) < Range(|bs|)
  {
    if bs != [] {
      DecodeBound(bs[1..]);
    }
  }

  /** Re-encoding the bytes of a field gives the same bytes. */
  lemma {:induction false} EncodeDecode(bs: seq<byte>)
    ensures Encode(Decode(bs), |bs|) == bs
  {
    if bs != [] {
      var rest := bs[1..];
      EncodeDecode(rest);
      LowByte(bs[0], Decode(rest));
      assert bs == [bs[0]] + rest;
    }
  }

  lemma LowByte(low: byte, rest: nat)
    ensures (low + 0x100 * rest) % 0x100 == low && (low + 0x100 * rest) / 0x100 == rest
  {
  }

  /* ---------- headers ---------- */

  /** What a header stores: its type tag, and the fields of its layout. Tags above 4 are not a
      layout; readers return 0 for them and writers do nothing. */
  datatype Header = Header(tag: nat, len: nat, alloc: nat)

  /** Bytes of each of the two fields of layouts 1 to 4. */
  function Width(tag: nat): nat {
    if tag == 1 then 1 else if tag == 2 then 2 else if tag == 3 then 4 else if tag == 4 then 8 else 0
  }

  function HeaderSize(tag: nat): nat {
    2 * Width(tag) + 1
  }

  /** How many different lengths a layout can store. */
  function Modulus(tag: nat): (m: nat)
    ensures m > 0
  {
    if tag == 0 then 32 else if tag <= 4 then Range(Width(tag)) else 1
  }

  /** 5, 8, 16, 32 and 64 bits; and how many bytes a header of each has. */
  lemma ModulusValues()
    ensures Modulus(0) == 32 && Modulus(1) == 0x100 && Modulus(2) == 0x1_0000
    ensures Modulus(3) == 0x1_0000_0000 && Modulus(4) == 0x1_0000_0000_0000_0000
    ensures HeaderSize(0) == 1 && HeaderSize(1) == 3 && HeaderSize(2) == 5 && HeaderSize(3) == 9
    ensures HeaderSize(4) == 17 && forall tag: nat | tag > 4 :: HeaderSize(tag) == 1
  {
    RangeValues();
  }

  datatype Op = SetLen(n: size_t) | IncLen(n: size_t) | SetAlloc(n: size_t)

  /** The effect of one call on what the header stores: every stored value is reduced to the
      width of the layout, and a type 5 header has no allocation field. */
  function Apply(h: Header, op: Op): Header {
    if h.tag > 4 then h
    else match op
      case SetLen(n) => SetLenOf(h, n % Modulus(h.tag))
      case IncLen(n) => SetLenOf(h, (h.len + n) % Modulus(h.tag))
      case SetAlloc(n) => if h.tag == 0 then h else h.(alloc := n % Modulus(h.tag))
  }

  function SetLenOf(h: Header, len: nat): Header {
    if h.tag == 0 then Header(0, len, len) else h.(len := len)
  }

  function ApplyAll(h: Header, ops: seq<Op>): Header {
    if ops == [] then h else Apply(ApplyAll(h, ops[..|ops| - 1]), ops[|ops| - 1])
  }

  /** sdsavail: the subtraction wraps in size_t, except that a 32-bit layout subtracts in
      32 bits first. */
  function Avail(h: Header): size_t {
    if h.tag == 0 || h.tag > 4 then 0
    else if h.tag == 3 then (h.alloc - h.len) % 0x1_0000_0000
    else (h.alloc - h.len) % SIZE_T_RANGE
  }

  ghost predicate InRange(h: Header) {
    && (h.tag <= 4 ==> h.len < Modulus(h.tag) && h.alloc < Modulus(h.tag))
    && (h.tag == 0 ==> h.alloc == h.len)
    && (h.tag > 4 ==> h.len == 0 && h.alloc == 0)
  }

  /** sdsalloc = sdsavail + sdslen holds exactly while the length does not exceed the
      allocation; in wrapping size_t arithmetic the 32-bit layout is the only one it can fail
      for. */
  lemma AllocIsAvailPlusLen(h: Header)
    requires InRange(h)
    ensures h.alloc == Avail(h) + h.len <==> h.len <= h.alloc
    ensures h.alloc == (Avail(h) + h.len) % SIZE_T_RANGE <==> h.tag != 3 || h.len <= h.alloc
    ensures h.tag == 3 && h.len > h.alloc ==> Avail(h) == 0x1_0000_0000 + h.alloc - h.len
    ensures h.tag == 0 || h.tag > 4 ==> Avail(h) == 0
  {
    RangeValues();
  }

  /** The documented equation survives any sequence of calls that stays within the layout and
      never lets the length pass the allocation. */
  lemma {:induction false} EquationPreserved(h: Header, ops: seq<Op>)
    requires InRange(h) && h.len <= h.alloc
    requires forall k | 0 <= k <= |ops| ::
               ApplyAll(h, ops[..k]).len <= ApplyAll(h, ops[..k]).alloc
    ensures var g := ApplyAll(h, ops); InRange(g) && g.tag == h.tag && g.alloc == Avail(g) + g.len
  {
    assert ops[..|ops|] == ops;
    ApplyAllInRange(h, ops);
    AllocIsAvailPlusLen(ApplyAll(h, ops));
  }

  lemma {:induction false} ApplyAllInRange(h: Header, ops: seq<Op>)
    requires InRange(h)
    ensures InRange(ApplyAll(h, ops)) && ApplyAll(h, ops).tag == h.tag
  {
    if ops != [] {
      ApplyAllInRange(h, ops[..|ops| - 1]);
    }
  }

  /* ---------- the string in memory ---------- */

  /** A range of bytes. */
  datatype Field = Field(from: nat, to: nat) {
    predicate Has(i: int) { from <= i < to }
  }

  class SdsString {
    const mem: array<byte>
    const s: nat  // index of the first data byte; the header ends just before it

    /** The data pointer has a whole header in front of it. */
    ghost predicate Valid()
      reads mem
    {
      1 <= s <= mem.Length && HeaderSize(mem[s - 1] % 8) <= s
    }

    function Tag(): nat
      requires Valid()
      reads mem
    {
      mem[s - 1] % 8
    }

    function LenAt(): nat
      requires Valid()
      reads mem
    {
      s - HeaderSize(Tag())
    }

    function AllocAt(): nat
      requires Valid()
      reads mem
    {
      s - 1 - Width(Tag())
    }

    /** The bytes that store the length: in a type 5 header those of the flags. */
    function LenField(): Field
      requires Valid()
      reads mem
    {
      if Tag() == 0 then Field(s - 1, s) else Field(LenAt(), AllocAt())
    }

    function AllocField(): Field
      requires Valid()
      reads mem
    {
      if Tag() == 0 then Field(s - 1, s - 1) else Field(AllocAt(), s - 1)
    }

    /** sdslen, sdsalloc and the type tag, read off the bytes. */
    function Read(): (h: Header)
      requires Valid()
      reads mem
      ensures h.tag == Tag()
    {
      var t := Tag();
      if t == 0 then Header(0, mem[s - 1] / 8, mem[s - 1] / 8)
      else if t <= 4 then
        Header(t, Decode(mem[LenAt()..AllocAt()]), Decode(mem[AllocAt()..s - 1]))
      else Header(t, 0, 0)
    }

    constructor (mem: array<byte>, s: nat)
      requires 1 <= s <= mem.Length && HeaderSize(mem[s - 1] % 8) <= s
      ensures Valid() && this.mem == mem && this.s == s
    {
      this.mem, this.s := mem, s;
    }

    /** What the bytes can say is in the range of the layout. */
    lemma ReadInRange()
      requires Valid()
      ensures InRange(Read())
    {
      if 1 <= Tag() <= 4 {
        DecodeBound(mem[LenAt()..AllocAt()]);
        DecodeBound(mem[AllocAt()..s - 1]);
      }
    }

    /** Where the fields lie: right in front of the data the flags, in front of them the allocation and
        in front of that the length, least significant byte first. */
    lemma ReadBytes()
      requires Valid()
      ensures mem[s - 1] % 8 == 0 ==> Read() == Header(0, mem[s - 1] / 8, mem[s - 1] / 8)
      ensures mem[s - 1] % 8 == 1 ==> s >= 3 && Read() == Header(1, mem[s - 3], mem[s - 2])
      ensures mem[s - 1] % 8 == 2 ==>
                s >= 5 && Read() == Header(2, mem[s - 5] as int + 0x100 * mem[s - 4] as int,
                                           mem[s - 3] as int + 0x100 * mem[s - 2] as int)
      ensures mem[s - 1] % 8 == 3 ==>
                s >= 9 && Read() == Header(3, Decode(mem[s - 9..s - 5]), Decode(mem[s - 5..s - 1]))
      ensures mem[s - 1] % 8 == 4 ==>
                s >= 17 && Read() == Header(4, Decode(mem[s - 17..s - 9]), Decode(mem[s - 9..s - 1]))
      ensures mem[s - 1] % 8 > 4 ==> Read() == Header(mem[s - 1] % 8, 0, 0)
    {
      if mem[s - 1] % 8 == 1 {
        DecodeOne(mem[s - 3]);
        DecodeOne(mem[s - 2]);
        assert mem[s - 3..s - 2] == [mem[s - 3]] && mem[s - 2..s - 1] == [mem[s - 2]];
      } else if mem[s - 1] % 8 == 2 {
        DecodeTwo(mem[s - 5], mem[s - 4]);
        DecodeTwo(mem[s - 3], mem[s - 2]);
        assert mem[s - 5..s - 3] == [mem[s - 5], mem[s - 4]] && mem[s - 3..s - 1] == [mem[s - 3], mem[s - 2]];
      }
    }

    /** Stores the low bytes of n, least significant first. */
    method Store(at: nat, width: nat, n: nat)
      requires at + width <= mem.Length
      modifies mem
      ensures mem[at..at + width] == Encode(n, width)
      ensures forall i | 0 <= i < mem.Length && !(at <= i < at + width) :: mem[i] == old(mem[i])
    {
      var rest := n;
      for k := 0 to width
        invariant mem[at..at + k] + Encode(rest, width - k) == Encode(n, width)
        invariant forall i | 0 <= i < mem.Length && !(at <= i < at + width) :: mem[i] == old(mem[i])
      {
        ghost var before := mem[at..at + k];
        mem[at + k] := rest % 0x100;
        assert mem[at..at + k + 1] == before + [rest % 0x100];
        assert Encode(rest, width - k) == [rest % 0x100] + Encode(rest / 0x100, width - k - 1);
        rest := rest / 0x100;
      }
    }

    method StoreLen(n: size_t)
      requires Valid() && 1 <= Tag() <= 4
      modifies mem
      ensures Valid() && Read() == old(Read()).(len := n % Modulus(old(Tag())))
      ensures forall i | 0 <= i < mem.Length && !(old(LenAt()) <= i < old(AllocAt())) ::
                mem[i] == old(mem[i])
    {
      ghost var alloc := mem[AllocAt()..s - 1];
      var at, w := LenAt(), Width(Tag());
      Store(at, w, n);
      assert mem[AllocAt()..s - 1] == alloc;
      DecodeEncode(n, w);
    }

    method StoreAlloc(n: size_t)
      requires Valid() && 1 <= Tag() <= 4
      modifies mem
      ensures Valid() && Read() == old(Read()).(alloc := n % Modulus(old(Tag())))
      ensures forall i | 0 <= i < mem.Length && !(old(AllocAt()) <= i < s - 1) ::
                mem[i] == old(mem[i])
    {
      ghost var len := mem[LenAt()..AllocAt()];
      var at, w := AllocAt(), Width(Tag());
      Store(at, w, n);
      assert mem[LenAt()..AllocAt()] == len;
      DecodeEncode(n, w);
    }

    /** In a type 5 header the length shares the flags byte with the tag, which is 0. */
    method StoreFlags(flags: byte)
      requires Valid() && Tag() == 0 && flags % 8 == 0
      modifies mem
      ensures Valid() && Read() == Header(0, flags / 8, flags / 8)
      ensures forall i | 0 <= i < mem.Length && i != s - 1 :: mem[i] == old(mem[i])
    {
      mem[s - 1] := flags;
    }

    method SetLen(n: size_t)
      requires Valid()
      modifies mem
      ensures Valid() && Read() == Apply(old(Read()), Op.SetLen(n)) && Tag() == old(Tag())
      ensures Tag() <= 4 ==> Read().len == n % Modulus(Tag())
      ensures Tag() > 4 ==> mem[..] == old(mem[..])
      ensures 1 <= Tag() <= 4 ==> Read().alloc == old(Read().alloc)
      ensures forall i | 0 <= i < mem.Length && !old(LenField()).Has(i) :: mem[i] == old(mem[i])
    {
      if Tag() == 0 {
        ShiftedLength(n);
        StoreFlags((n * 8) % SIZE_T_RANGE % 0x100);
      } else if Tag() <= 4 {
        StoreLen(n);
      }
    }

    method IncFlags(n: size_t)
      requires Valid() && Tag() == 0
      modifies mem
      ensures Valid() && Read() == Apply(old(Read()), Op.IncLen(n))
      ensures forall i | 0 <= i < mem.Length && i != s - 1 :: mem[i] == old(mem[i])
    {
      var newLen := (mem[s - 1] / 8 + n % 0x100) % 0x100;
      FiveBitSum(mem[s - 1] / 8, n);
      StoreFlags((newLen * 8) % 0x100);
    }

    /** The increment is cast to the field's width before it is added. */
    method IncField(n: size_t)
      requires Valid() && 1 <= Tag() <= 4
      modifies mem
      ensures Valid() && Read() == Apply(old(Read()), Op.IncLen(n))
      ensures forall i | 0 <= i < mem.Length && !(old(LenAt()) <= i < old(AllocAt())) ::
                mem[i] == old(mem[i])
    {
      var h := Read();
      var m := Modulus(h.tag);
      IncIsModular(h.len, n, m);
      var sum := (h.len + n % m) % m;
      assert sum < SIZE_T_RANGE by { RangeValues(); }
      StoreLen(sum);
    }

    method IncLen(n: size_t)
      requires Valid()
      modifies mem
      ensures Valid() && Read() == Apply(old(Read()), Op.IncLen(n)) && Tag() == old(Tag())
      ensures Tag() <= 4 ==> Read().len == (old(Read().len) + n) % Modulus(Tag())
      ensures Tag() > 4 ==> mem[..] == old(mem[..])
      ensures 1 <= Tag() <= 4 ==> Read().alloc == old(Read().alloc)
      ensures forall i | 0 <= i < mem.Length && !old(LenField()).Has(i) :: mem[i] == old(mem[i])
    {
      if Tag() == 0 {
        IncFlags(n);
      } else if Tag() <= 4 {
        IncField(n);
      }
    }

    method SetAlloc(n: size_t)
      requires Valid()
      modifies mem
      ensures Valid() && Read() == Apply(old(Read()), Op.SetAlloc(n)) && Tag() == old(Tag())
      ensures Tag() == 0 || Tag() > 4 ==> mem[..] == old(mem[..])
      ensures 1 <= Tag() <= 4 ==> Read().alloc == n % Modulus(Tag()) && Read().len == old(Read().len)
      ensures forall i | 0 <= i < mem.Length && !old(AllocField()).Has(i) :: mem[i] == old(mem[i])
    {
      if 1 <= Tag() <= 4 {
        StoreAlloc(n);
      }
    }

    /** Any sequence of calls: the header ends up as the fold says, and no byte outside its fields
        has changed, neither the data nor, with fields of their own, the flags. */
    method Perform(ops: seq<Op>)
      requires Valid()
      modifies mem
      ensures Valid() && Read() == ApplyAll(old(Read()), ops)
      ensures forall i | 0 <= i < mem.Length && !old(LenField()).Has(i) && !old(AllocField()).Has(i) ::
                mem[i] == old(mem[i])
    {
      for k := 0 to |ops|
        invariant Valid() && Read() == ApplyAll(old(Read()), ops[..k]) && Tag() == old(Tag())
        invariant LenField() == old(LenField()) && AllocField() == old(AllocField())
        invariant forall i | 0 <= i < mem.Length && !old(LenField()).Has(i) && !old(AllocField()).Has(i) ::
                    mem[i] == old(mem[i])
      {
        assert ops[..k + 1][..k] == ops[..k];
        match ops[k] {
          case SetLen(n) => SetLen(n);
          case IncLen(n) => IncLen(n);
          case SetAlloc(n) => SetAlloc(n);
        }
      }
      assert ops[..|ops|] == ops;
    }
  }

  /** Shifting a size_t left by three and keeping a byte leaves five bits of the length. */
  lemma ShiftedLength(n: nat)
    ensures (n * 8) % SIZE_T_RANGE % 0x100 == 8 * (n % 32)
  {
    var q := (n * 8) / SIZE_T_RANGE;
    assert n * 8 == SIZE_T_RANGE * q + (n * 8) % SIZE_T_RANGE;
    assert n == 32 * (n / 32) + n % 32;
    assert (n * 8) % SIZE_T_RANGE == 0x100 * (n / 32 - 0x100_0000_0000_0000 * q) + 8 * (n % 32);
  }

  lemma FiveBits(t: nat)
    ensures (t * 8) % 0x100 == 8 * (t % 32)
  {
  }

  lemma Wraps(n: nat)
    ensures n % 0x100 % 32 == n % 32
  {
  }

  lemma SameMod(a: nat, k: nat)
    ensures (a + 32 * k) % 32 == a % 32
  {
  }

  lemma FiveBitCarry(len: nat, n: nat)
    ensures (len + n % 0x100) % 32 == (len + n) % 32
  {
    SameMod(len + n % 0x100, 8 * (n / 0x100));
    assert n == 32 * (8 * (n / 0x100)) + n % 0x100;
  }

  /** A length of five bits, carried through two bytes and shifted into place. */
  lemma FiveBitSum(len: nat, n: nat)
    ensures var t := (len + n % 0x100) % 0x100; (t * 8) % 0x100 == 8 * ((len + n) % 32)
  {
    FiveBits((len + n % 0x100) % 0x100);
    Wraps(len + n % 0x100);
    FiveBitCarry(len, n);
  }

  /** Casting the increment first and then wrapping the sum is one reduction of the sum. */
  lemma IncIsModular(len: nat, n: nat, m: nat)
    requires m > 0
    ensures ((len + n % m) % m) % m == (len + n) % m
  {
    var c := n / m;
    assert n == m * c + n % m;
    var t := len + n % m;
    var a := t / m;
    assert t == m * a + t % m;
    assert m * (a + c) == m * a + m * c;
    ModIs(len + n, m, a + c, t % m);
    ModIs(t % m, m, 0, t % m);
  }
}
