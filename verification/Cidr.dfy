/**
 `ToCIDR` of cloudinit/cloudinit.go: the prefix length is the number of '1' characters in the
 unpadded binary rendering of the big-endian netmask.
 */
module Cidr {
  import opened Wrappers
  import opened Decimal
  import opened Ipv4
  import opened Quotients

  /** `strconv.FormatUint(v, 2)`. */
  function Binary(v: nat): string {
    if v < 2 then [if v == 1 then '1' else '0'] else Binary(v / 2) + [if v % 2 == 1 then '1' else '0']
  }

  function CountOnes(s: string): nat {
    if s == [] then 0 else CountOnes(s[..|s| - 1]) + if s[|s| - 1] == '1' then 1 else 0
  }

  /** `DefaultMask`: the classful mask of an address (section 3.2 of RFC 791), class C for all
      other addresses. */
  function DefaultMask(v: nat): nat {
    if v / 0x100_0000 < 0x80 then 0xFF00_0000
    else if v / 0x100_0000 < 0xC0 then 0xFFFF_0000
    else 0xFFFF_FF00
  }

  function PrefixLength(netmask: string): nat {
    match ParseAddress(netmask)
    case None => CountOnes(Binary(0))
    case Some(m) => CountOnes(Binary(m))
  }

  /** `None` is the run-time panic of indexing the nil default mask of a non-IPv4 address. */
  function ToCIDR(address: string, netmask: string): Option<string> {
    if |netmask| == 0 && ParseAddress(address).None? then None
    else
      var mask := if |netmask| == 0 then MaskString(address) else netmask;
      Some(address + "/" + Format(PrefixLength(mask)))
  }

  function MaskString(address: string): string
    requires ParseAddress(address).Some?
  {
    PrintAddress(DefaultMask(ParseAddress(address).value))
  }

  /******* The count is the population count *******/

  function Pow2(n: nat): (p: nat)
    ensures p > 0
  {
    if n == 0 then 1 else 2 * Pow2(n - 1)
  }

  function Bit(v: nat, i: nat): nat { v / Pow2(i) % 2 }

  /** How many of the lowest `n` bits of `v` are set. */
  function BitsSet(v: nat, n: nat): nat {
    if n == 0 then 0 else BitsSet(v, n - 1) + Bit(v, n - 1)
  }

  lemma {:induction false} Halves(v: nat, i: nat)
    ensures v / Pow2(i + 1) == v / 2 / Pow2(i)
  {
    var p, q := Pow2(i), v / 2 / Pow2(i);
    var h := v / 2;
    assert h == p * q + h % p;
    assert v == 2 * h + v % 2;
    assert 2 * (p * q) == (2 * p) * q;
    assert 2 * (h % p) + v % 2 < 2 * p;
    QuotientIs(v, 2 * p, q, 2 * (h % p) + v % 2);
  }

  lemma {:induction false} BitsSetHalf(v: nat, n: nat)
    ensures BitsSet(v, n + 1) == v % 2 + BitsSet(v / 2, n)
  {
    if n == 0 {
      assert BitsSet(v, 1) == Bit(v, 0) && Bit(v, 0) == v / 1 % 2;
    } else {
      BitsSetHalf(v, n - 1);
      Halves(v, n - 1);
    }
  }

  lemma {:induction false} CountIsBitsSet(v: nat, n: nat)
    requires v < Pow2(n)
    ensures CountOnes(Binary(v)) == BitsSet(v, n)
  {
    if v < 2 {
      assert Binary(v)[..0] == [];
      LowBitOnly(v, n);
    } else {
      assert Binary(v)[..|Binary(v)| - 1] == Binary(v / 2);
      CountIsBitsSet(v / 2, n - 1);
      BitsSetHalf(v, n - 1);
    }
  }

  lemma {:induction false} LowBitOnly(v: nat, n: nat)
    requires v < 2 && v < Pow2(n)
    ensures BitsSet(v, n) == v
  {
    if n > 0 {
      BitsSetHalf(v, n - 1);
      LowBitOnly(0, n - 1);
    }
  }

  lemma TwoTo32()
    ensures Pow2(32) == TWO32
  {
    assert Pow2(8) == 256;
    assert Pow2(16) == 0x1_0000 by { PowAdd(8, 8); }
    PowAdd(16, 16);
  }

  lemma {:induction false} PowAdd(a: nat, b: nat)
    ensures Pow2(a + b) == Pow2(a) * Pow2(b)
  {
    if b == 0 {
    } else {
      PowAdd(a, b - 1);
      assert Pow2(a) * (2 * Pow2(b - 1)) == 2 * (Pow2(a) * Pow2(b - 1));
    }
  }

  /** For every netmask that parses, the prefix length is its population count; for every other
      non-empty string it is 0. */
  lemma PrefixIsPopulationCount(netmask: string)
    ensures PrefixLength(netmask) ==
            if ParseAddress(netmask).Some? then BitsSet(ParseAddress(netmask).value, 32) else 0
  {
    match ParseAddress(netmask)
    case Some(m) =>
      PrintParse(netmask);
      TwoTo32();
      CountIsBitsSet(m, 32);
    case None =>
      assert Binary(0)[..0] == [];
  }

  /******* Contiguous masks *******/

  /** `n` ones followed by zeros (section 3.1 of RFC 4632). */
  function MaskOf(n: nat): nat
    requires n <= 32
  {
    ProductIsNat(Pow2(32 - n), Pow2(n) - 1);
    Pow2(32 - n) * (Pow2(n) - 1)
  }

  lemma ProductIsNat(a: nat, b: nat)
    ensures a * b >= 0
  {
  }

  lemma MaskBelow(n: nat)
    requires n <= 32
    ensures MaskOf(n) == TWO32 - Pow2(32 - n)
    ensures MaskOf(n) < TWO32
  {
    PowAdd(32 - n, n);
    TwoTo32();
    Distribute(Pow2(32 - n), Pow2(n), 1);
  }

  lemma DoubleFirst(a: int, b: int)
    ensures (2 * a) * b == 2 * (a * b)
  {
  }

  lemma DoubleShifts(v: nat, n: nat)
    ensures BitsSet(2 * v, n + 1) == BitsSet(v, n)
  {
    BitsSetHalf(2 * v, n);
  }

  lemma {:induction false} ShiftedOnes(k: nat, m: nat, n: nat)
    ensures BitsSet(Pow2(k) * m, k + n) == BitsSet(m, n)
  {
    if k > 0 {
      var v := Pow2(k - 1) * m;
      assert Pow2(k) * m == 2 * v by { DoubleFirst(Pow2(k - 1), m); }
      ShiftedOnes(k - 1, m, n);
      DoubleShifts(v, k - 1 + n);
    }
  }

  lemma {:induction false} AllOnes(n: nat)
    ensures BitsSet(Pow2(n) - 1, n) == n
  {
    if n > 0 {
      AllOnes(n - 1);
      DoubleAndOne(Pow2(n - 1) - 1, n - 1);
    }
  }

  lemma DoubleAndOne(v: nat, n: nat)
    ensures BitsSet(2 * v + 1, n + 1) == BitsSet(v, n) + 1
  {
    assert (2 * v + 1) / 2 == v && (2 * v + 1) % 2 == 1 by { HalfOfOdd(v); }
    BitsSetHalf(2 * v + 1, n);
  }

  lemma HalfOfOdd(v: nat)
    ensures (2 * v + 1) / 2 == v && (2 * v + 1) % 2 == 1
  {
  }

  lemma MaskHasBits(n: nat)
    requires n <= 32
    ensures BitsSet(MaskOf(n), 32) == n
  {
    ShiftedOnes(32 - n, Pow2(n) - 1, n);
    AllOnes(n);
  }

  /** The contiguous mask of every `n` in 0..32 yields prefix `n`, whatever the address. */
  lemma ContiguousMaskYieldsItsPrefix(address: string, n: nat)
    requires n <= 32
    ensures MaskOf(n) < TWO32
    ensures ToCIDR(address, PrintAddress(MaskOf(n))) == Some(address + "/" + Format(n))
  {
    MaskBelow(n);
    var netmask := PrintAddress(MaskOf(n));
    ParsePrint(MaskOf(n));
    PrefixIsPopulationCount(netmask);
    MaskHasBits(n);
    EmptyIsNoAddress();
  }

  /** The prefix stands for the mask iff the mask is contiguous: other masks are accepted too, but
      the prefix then names another mask. */
  lemma PrefixRecoversMaskIff(netmask: string)
    requires ParseAddress(netmask).Some?
    ensures PrefixLength(netmask) <= 32
    ensures MaskOf(PrefixLength(netmask)) == ParseAddress(netmask).value <==>
            exists n :: 0 <= n <= 32 && MaskOf(n) == ParseAddress(netmask).value
  {
    PrefixIsPopulationCount(netmask);
    BitsSetBound(ParseAddress(netmask).value, 32);
    if n :| 0 <= n <= 32 && MaskOf(n) == ParseAddress(netmask).value {
      MaskHasBits(n);
    }
  }

  lemma {:induction false} BitsSetBound(v: nat, n: nat)
    ensures BitsSet(v, n) <= n
  {
    if n > 0 { BitsSetBound(v, n - 1); }
  }

  /** A host mask is accepted and yields the prefix of another network. */
  lemma HostMaskIsAccepted()
    ensures PrefixLength(PrintAddress(0xFF)) == 8
    ensures MaskOf(8) != 0xFF
  {
    ParsePrint(0xFF);
    PrefixIsPopulationCount(PrintAddress(0xFF));
    assert Pow2(8) - 1 == 0xFF;
    AllOnes(8);
    TwoTo32();
    ZerosAbove(0xFF, 8, 32);
    MaskBelow(8);
    PowAdd(8, 16);
    PowAdd(8, 8);
  }

  lemma {:induction false} ZerosAbove(v: nat, k: nat, n: nat)
    requires v < Pow2(k) && k <= n
    ensures BitsSet(v, n) == BitsSet(v, k)
  {
    CountIsBitsSet(v, k);
    PowMonotone(k, n);
    CountIsBitsSet(v, n);
  }

  lemma {:induction false} PowMonotone(a: nat, b: nat)
    requires a <= b
    ensures Pow2(a) <= Pow2(b)
  {
    if a < b { PowMonotone(a, b - 1); }
  }

  /** Without a netmask: 8, 16 or 24 by address class, and a panic for what is no IPv4 address. */
  lemma DefaultPrefixByClass(address: string)
    ensures ToCIDR(address, "").None? <==> ParseAddress(address).None?
    ensures ParseAddress(address).Some? ==>
              var first := ParseAddress(address).value / 0x100_0000;
              ToCIDR(address, "") ==
              Some(address + "/" + Format(if first < 128 then 8 else if first < 192 then 16 else 24))
  {
    if ParseAddress(address).Some? {
      var first := ParseAddress(address).value / 0x100_0000;
      var n := if first < 128 then 8 else if first < 192 then 16 else 24;
      ClassMask(n);
      ParsePrint(MaskOf(n));
      PrefixIsPopulationCount(PrintAddress(MaskOf(n)));
      MaskHasBits(n);
    }
  }

  /** In dotted form: the class is that of the first octet. */
  lemma DefaultPrefixOfQuad(a: nat, b: nat, c: nat, d: nat)
    requires a <= 255 && b <= 255 && c <= 255 && d <= 255
    ensures ToCIDR(Quad(a, b, c, d), "") ==
            Some(Quad(a, b, c, d) + "/" + (if a < 128 then "8" else if a < 192 then "16" else "24"))
  {
    ParseQuad(a, b, c, d);
    FromOctetsBack(a, b, c, d);
    DefaultPrefixByClass(Quad(a, b, c, d));
    assert Format(16) == "16" && Format(24) == "24" && Format(8) == "8";
  }

  lemma ClassMask(n: nat)
    requires n == 8 || n == 16 || n == 24
    ensures MaskOf(n) == if n == 8 then 0xFF00_0000 else if n == 16 then 0xFFFF_0000 else 0xFFFF_FF00
    ensures MaskOf(n) < TWO32
  {
    MaskBelow(n);
    assert Pow2(8) == 256;
    PowAdd(8, 8);
    PowAdd(8, 16);
  }
}
