/**
 Dotted-quad IPv4 addresses: the printing and parsing the network code relies on, and the address
 a cloned interface gets (providers/network.go 119-130).

 Addresses are numbers below 2^32; the sum with the node index wraps around as `uint32` does.
 Parsing accepts four decimal numbers up to 255 without superfluous leading zeros.
 */
module Ipv4 {
  import opened Wrappers
  import opened Decimal
  import opened Quotients

  const TWO32: nat := 0x1_0000_0000

  /******* Splitting at dots *******/

  function Split(s: string): (fields: seq<string>)
    ensures fields != []
  {
    if s == [] then [""]
    else
      var rest := Split(s[1..]);
      if s[0] == '.' then [""] + rest else [[s[0]] + rest[0]] + rest[1..]
  }

  function Join(fields: seq<string>): string
    requires fields != []
  {
    if |fields| == 1 then fields[0] else fields[0] + "." + Join(fields[1..])
  }

  lemma {:induction false} JoinSplit(s: string)
    ensures Join(Split(s)) == s
  {
    if s != [] {
      JoinSplit(s[1..]);
      if s[0] == '.' {
        JoinNewField(Split(s[1..]));
        assert s == "" + "." + s[1..];
      } else {
        JoinLonger(s[0], Split(s[1..]));
        assert s == [s[0]] + s[1..];
      }
    }
  }

  lemma JoinNewField(rest: seq<string>)
    requires rest != []
    ensures Join([""] + rest) == "." + Join(rest)
  {
    assert ([""] + rest)[1..] == rest;
  }

  lemma JoinLonger(c: char, rest: seq<string>)
    requires rest != []
    ensures Join([[c] + rest[0]] + rest[1..]) == [c] + Join(rest)
  {
    var longer := [[c] + rest[0]] + rest[1..];
    assert longer[0] == [c] + rest[0] && longer[1..] == rest[1..];
    if |rest| > 1 {
      assert [c] + rest[0] + "." + Join(rest[1..]) == [c] + (rest[0] + "." + Join(rest[1..]));
    }
  }

  lemma {:induction false} SplitField(field: string)
    requires '.' !in field
    ensures Split(field) == [field]
  {
    if field != [] {
      SplitField(field[1..]);
      assert [field[0]] + field[1..] == field;
    }
  }

  lemma {:induction false} SplitFirst(field: string, rest: string)
    requires '.' !in field
    ensures Split(field + "." + rest) == [field] + Split(rest)
  {
    var s := field + "." + rest;
    if field == [] {
      assert s[1..] == rest;
    } else {
      SplitFirst(field[1..], rest);
      assert s[1..] == field[1..] + "." + rest;
      assert [field[0]] + field[1..] == field;
    }
  }

  /******* Printing and parsing *******/

  predicate IsOctet(s: string) { Canonical(s) && Parse(s) <= 255 }

  function FromOctets(a: nat, b: nat, c: nat, d: nat): nat {
    a * 0x100_0000 + b * 0x1_0000 + c * 0x100 + d
  }

  /** The big-endian value of the fields, if all are octets. */
  function FieldsValue(fields: seq<string>): Option<nat> {
    if fields == [] then Some(0)
    else
      var front, last := FieldsValue(fields[..|fields| - 1]), fields[|fields| - 1];
      if front.Some? && IsOctet(last) then Some(256 * front.value + Parse(last)) else None
  }

  function ParseAddress(s: string): Option<nat> {
    if |Split(s)| == 4 then FieldsValue(Split(s)) else None
  }

  lemma FourFields(f: seq<string>)
    requires |f| == 4
    ensures FieldsValue(f) ==
            if IsOctet(f[0]) && IsOctet(f[1]) && IsOctet(f[2]) && IsOctet(f[3])
            then Some(FromOctets(Parse(f[0]), Parse(f[1]), Parse(f[2]), Parse(f[3])))
            else None
  {
    assert f[..3] == f[..4][..3] && f[..2] == f[..3][..2] && f[..1] == f[..2][..1] && f[..1][..0] == [] && f == f[..4];
    assert FieldsValue(f[..1]) == if IsOctet(f[0]) then Some(Parse(f[0])) else None;
    assert FieldsValue(f[..2]) ==
           if IsOctet(f[0]) && IsOctet(f[1]) then Some(256 * Parse(f[0]) + Parse(f[1])) else None;
    assert FieldsValue(f[..3]).Some? <==> IsOctet(f[0]) && IsOctet(f[1]) && IsOctet(f[2]);
  }

  function PrintAddress(v: nat): string
    requires v < TWO32
  {
    Format(v / 0x100_0000) + "." +
    (Format(v / 0x1_0000 % 256) + "." + (Format(v / 0x100 % 256) + "." + Format(v % 256)))
  }

  lemma NoDot(n: nat)
    requires n <= 255
    ensures '.' !in Format(n) && IsOctet(Format(n)) && Parse(Format(n)) == n
  {
    ParseFormat(n);
  }

  lemma Octets(v: nat)
    requires v < TWO32
    ensures FromOctets(v / 0x100_0000, v / 0x1_0000 % 256, v / 0x100 % 256, v % 256) == v
    ensures v / 0x100_0000 <= 255
  {
    var high, middle := v / 0x1_0000, v / 0x100;
    assert v == 0x100 * middle + v % 0x100;
    assert middle == 0x100 * high + middle % 0x100;
    assert high == 0x100 * (v / 0x100_0000) + high % 0x100;
  }

  lemma ParsePrint(v: nat)
    requires v < TWO32
    ensures ParseAddress(PrintAddress(v)) == Some(v)
  {
    Octets(v);
    ParseQuad(v / 0x100_0000, v / 0x1_0000 % 256, v / 0x100 % 256, v % 256);
  }

  lemma ParseQuad(a: nat, b: nat, c: nat, d: nat)
    requires a <= 255 && b <= 255 && c <= 255 && d <= 255
    ensures ParseAddress(Format(a) + "." + (Format(b) + "." + (Format(c) + "." + Format(d)))) ==
            Some(FromOctets(a, b, c, d))
  {
    NoDot(a);
    NoDot(b);
    NoDot(c);
    NoDot(d);
    SplitField(Format(d));
    SplitFirst(Format(c), Format(d));
    SplitFirst(Format(b), Format(c) + "." + Format(d));
    SplitFirst(Format(a), Format(b) + "." + (Format(c) + "." + Format(d)));
    var s := Format(a) + "." + (Format(b) + "." + (Format(c) + "." + Format(d)));
    assert Split(s) == [Format(a), Format(b), Format(c), Format(d)];
    FourFields(Split(s));
  }

  lemma FromOctetsBack(a: nat, b: nat, c: nat, d: nat)
    requires a <= 255 && b <= 255 && c <= 255 && d <= 255
    ensures var v := FromOctets(a, b, c, d);
            v < TWO32 && v / 0x100_0000 == a && v / 0x1_0000 % 256 == b && v / 0x100 % 256 == c && v % 256 == d
  {
    var v := FromOctets(a, b, c, d);
    assert v / 0x1_0000 == a * 256 + b;
    assert v / 0x100 == (a * 256 + b) * 256 + c;
  }

  /** Only the printed form of an address parses to it, so the string determines the address and
      the address the string. */
  lemma PrintParse(s: string)
    requires ParseAddress(s).Some?
    ensures ParseAddress(s).value < TWO32 && PrintAddress(ParseAddress(s).value) == s
  {
    var f := Split(s);
    FourFields(f);
    FromOctetsBack(Parse(f[0]), Parse(f[1]), Parse(f[2]), Parse(f[3]));
    FormatParse(f[0]);
    FormatParse(f[1]);
    FormatParse(f[2]);
    FormatParse(f[3]);
    JoinSplit(s);
    var t := f[1..];
    assert Join(f) == f[0] + "." + Join(t);
    assert Join(t) == f[1] + "." + Join(t[1..]) && Join(t[1..]) == f[2] + "." + Join(t[1..][1..]);
    assert f[0] + "." + (f[1] + "." + (f[2] + "." + f[3])) == Join(f);
  }

  /******* The address of a clone *******/

  /** `uint32(i)`. */
  function ToUint32(i: int): nat { i % TWO32 }

  /** The `uint32` sum of an address and the offset of a node index. */
  function CloneValue(v: nat, nodeIndex: int): (r: nat)
    ensures r < TWO32
  {
    ToUint32(v + ToUint32(nodeIndex - 1))
  }

  function CloneAddress(address: string, dhcp: bool, controlPlane: bool, nodeIndex: int): string {
    if !controlPlane && nodeIndex > 0 && (!dhcp || |address| > 0) && ParseAddress(address).Some?
    then PrintAddress(CloneValue(ParseAddress(address).value, nodeIndex))
    else address
  }

  lemma Wrapped(x: int)
    requires 0 <= x < 2 * TWO32
    ensures x % TWO32 == if x < TWO32 then x else x - TWO32
  {
  }

  lemma AddressIsUint32(address: string)
    requires ParseAddress(address).Some?
    ensures ParseAddress(address).value < TWO32
  {
    PrintParse(address);
  }

  lemma EmptyIsNoAddress()
    ensures ParseAddress("").None?
  {
  }

  lemma CloneValueIs(v: nat, nodeIndex: int)
    ensures CloneValue(v, nodeIndex) == (v + (nodeIndex - 1)) % TWO32
  {
    AddReduced(v, nodeIndex - 1, TWO32);
  }

  lemma CloneValueTwice(v: nat, i: int, j: int)
    ensures CloneValue(CloneValue(v, i), j) == CloneValue(v, i + j - 1)
  {
    CloneValueIs(v, i);
    CloneValueIs(CloneValue(v, i), j);
    CloneValueIs(v, i + j - 1);
    var w := v + (i - 1);
    assert ((j - 1) + w % TWO32) % TWO32 == ((j - 1) + w) % TWO32 by { AddReduced(j - 1, w, TWO32); }
    assert (j - 1) + w == v + (i + j - 1 - 1);
  }

  /** The address of a worker clone, for every positive index. */
  lemma CloneAddressMeaning(address: string, dhcp: bool, nodeIndex: int)
    requires ParseAddress(address).Some? && nodeIndex > 0
    ensures ParseAddress(CloneAddress(address, dhcp, false, nodeIndex)) ==
            Some((ParseAddress(address).value + (nodeIndex - 1)) % TWO32)
  {
    var v := ParseAddress(address).value;
    var w := CloneValue(v, nodeIndex);
    assert CloneAddress(address, dhcp, false, nodeIndex) == PrintAddress(w) by { EmptyIsNoAddress(); }
    assert w == (v + (nodeIndex - 1)) % TWO32 by { CloneValueIs(v, nodeIndex); }
    assert ParseAddress(PrintAddress(w)) == Some(w) by { ParsePrint(w); }
  }

  /** Clones of the control plane, and of what is no IPv4 address, keep the address. */
  lemma AddressIsKept(address: string, dhcp: bool, controlPlane: bool, nodeIndex: int)
    requires controlPlane || nodeIndex <= 0 || ParseAddress(address) == None
    ensures CloneAddress(address, dhcp, controlPlane, nodeIndex) == address
  {
  }

  function Quad(a: nat, b: nat, c: nat, d: nat): string {
    Format(a) + "." + (Format(b) + "." + (Format(c) + "." + Format(d)))
  }

  lemma QuadOf(v: nat, a: nat, b: nat, c: nat, d: nat)
    requires a <= 255 && b <= 255 && c <= 255 && d <= 255 && v == FromOctets(a, b, c, d)
    ensures v < TWO32 && PrintAddress(v) == Quad(a, b, c, d)
  {
    FromOctetsBack(a, b, c, d);
  }

  /** The clone of an address whose sum does not wrap around. */
  lemma CloneWithin(address: string, v: nat, dhcp: bool, nodeIndex: int)
    requires ParseAddress(address) == Some(v) && nodeIndex > 0 && v + (nodeIndex - 1) < TWO32
    ensures CloneAddress(address, dhcp, false, nodeIndex) == PrintAddress(v + (nodeIndex - 1))
  {
    CloneValueIs(v, nodeIndex);
    Wrapped(v + (nodeIndex - 1));
    EmptyIsNoAddress();
  }

  lemma QuadParses(a: nat, b: nat, c: nat, d: nat)
    requires a <= 255 && b <= 255 && c <= 255 && d <= 255
    ensures ParseAddress(Quad(a, b, c, d)) == Some(FromOctets(a, b, c, d))
  {
    ParseQuad(a, b, c, d);
  }

  lemma Carried(a: nat, b: nat, c: nat, d: nat, toC: nat, toD: nat, offset: nat)
    requires 256 * toC + toD == 256 * c + d + offset
    ensures FromOctets(a, b, c, d) + offset == FromOctets(a, b, toC, toD)
  {
  }

  lemma CloneOf(address: string, clone: string, v: nat, w: nat, dhcp: bool, nodeIndex: int)
    requires ParseAddress(address) == Some(v) && nodeIndex > 0 && v + (nodeIndex - 1) == w < TWO32
    requires PrintAddress(w) == clone
    ensures CloneAddress(address, dhcp, false, nodeIndex) == clone
  {
    CloneWithin(address, v, dhcp, nodeIndex);
  }

  /** In dotted form: the index counts in the last octet and carries into the one before. */
  lemma CloneOfQuad(a: nat, b: nat, c: nat, d: nat, toC: nat, toD: nat, dhcp: bool, nodeIndex: int)
    requires a <= 255 && b <= 255 && c <= 255 && d <= 255 && toC <= 255 && toD <= 255 && nodeIndex > 0
    requires 256 * toC + toD == 256 * c + d + (nodeIndex - 1)
    ensures CloneAddress(Quad(a, b, c, d), dhcp, false, nodeIndex) == Quad(a, b, toC, toD)
  {
    var v, w := FromOctets(a, b, c, d), FromOctets(a, b, toC, toD);
    QuadParses(a, b, c, d);
    Carried(a, b, c, d, toC, toD, nodeIndex - 1);
    QuadOf(w, a, b, toC, toD);
    CloneOf(Quad(a, b, c, d), Quad(a, b, toC, toD), v, w, dhcp, nodeIndex);
  }

  /** The index between 1 and 2^32 that a clone of `address` with address `clone` has. */
  function IndexFrom(address: string, clone: string): int {
    if ParseAddress(address).None? || ParseAddress(clone).None? then 0
    else (ParseAddress(clone).value - ParseAddress(address).value) % TWO32 + 1
  }

  lemma OffsetFrom(v: nat, w: nat, i: nat)
    requires v < TWO32 && i < TWO32 && w == (v + i) % TWO32
    ensures (w - v) % TWO32 == i
  {
    Wrapped(v + i);
  }

  lemma OffsetTellsIndex(address: string, clone: string, i: int)
    requires ParseAddress(address).Some? && 1 <= i <= TWO32
    requires ParseAddress(clone) == Some((ParseAddress(address).value + (i - 1)) % TWO32)
    ensures IndexFrom(address, clone) == i
  {
    AddressIsUint32(address);
    OffsetFrom(ParseAddress(address).value, ParseAddress(clone).value, i - 1);
  }

  /** The address of a clone tells its index, across the wrap-around too. */
  lemma CloneTellsIndex(address: string, dhcp: bool, i: int)
    requires ParseAddress(address).Some? && 1 <= i <= TWO32
    ensures IndexFrom(address, CloneAddress(address, dhcp, false, i)) == i
  {
    CloneAddressMeaning(address, dhcp, i);
    OffsetTellsIndex(address, CloneAddress(address, dhcp, false, i), i);
  }

  /** Distinct indices from 1 to 2^32 give distinct addresses. */
  lemma CloneAddressesDistinct(address: string, dhcp: bool, i: int, j: int)
    requires ParseAddress(address).Some? && 1 <= i < j <= TWO32
    ensures CloneAddress(address, dhcp, false, i) != CloneAddress(address, dhcp, false, j)
  {
    CloneTellsIndex(address, dhcp, i);
    CloneTellsIndex(address, dhcp, j);
  }

  /** Cloning a clone adds the offsets. */
  lemma CloneTwiceAdds(address: string, dhcp: bool, i: int, j: int)
    requires ParseAddress(address).Some? && i > 0 && j > 0
    ensures CloneAddress(CloneAddress(address, dhcp, false, i), dhcp, false, j) ==
            CloneAddress(address, dhcp, false, i + j - 1)
  {
    var v := ParseAddress(address).value;
    CloneValueTwice(v, i, j);
    EmptyIsNoAddress();
    ParsePrint(CloneValue(v, i));
  }

  /** Index 0 and index 1 share the template's address. */
  lemma FirstTwoIndicesCollide(address: string, dhcp: bool)
    ensures CloneAddress(address, dhcp, false, 0) == CloneAddress(address, dhcp, false, 1) == address
  {
    if ParseAddress(address).Some? {
      CloneAddressMeaning(address, dhcp, 1);
      PrintParse(address);
      Wrapped(ParseAddress(address).value);
      PrintParse(CloneAddress(address, dhcp, false, 1));
    }
  }

  /** What an index adds to the template's address: indices up to 1 add nothing. */
  function OffsetOf(nodeIndex: int): nat { if nodeIndex <= 1 then 0 else nodeIndex - 1 }

  lemma CloneOffset(address: string, dhcp: bool, i: int)
    requires ParseAddress(address).Some?
    ensures ParseAddress(CloneAddress(address, dhcp, false, i)) ==
            Some((ParseAddress(address).value + OffsetOf(i)) % TWO32)
  {
    if i > 0 {
      CloneAddressMeaning(address, dhcp, i);
    } else {
      AddressIsUint32(address);
    }
  }

  lemma SameSumIff(v: nat, a: nat, b: nat)
    ensures (v + a) % TWO32 == (v + b) % TWO32 <==> a % TWO32 == b % TWO32
  {
    AddReduced(v, a, TWO32);
    AddReduced(v, b, TWO32);
    if (v + a) % TWO32 == (v + b) % TWO32 {
      SameRemainder(v + a, v + b, a, b);
    }
  }

  lemma SameRemainder(x: nat, y: nat, a: nat, b: nat)
    requires x % TWO32 == y % TWO32 && x - a == y - b
    ensures a % TWO32 == b % TWO32
  {
    var p, q := x / TWO32, y / TWO32;
    assert x == TWO32 * p + x % TWO32 && y == TWO32 * q + y % TWO32;
    assert a == b + TWO32 * (p - q);
    AddMultiple(b, TWO32, p - q);
  }

  lemma SameAddressIff(s: string, t: string)
    requires ParseAddress(s).Some? && ParseAddress(t).Some?
    ensures s == t <==> ParseAddress(s) == ParseAddress(t)
  {
    PrintParse(s);
    PrintParse(t);
  }

  /** Worker clones with any two indices have the same address iff their offsets agree modulo 2^32;
      indices 0 and 1 are the first such pair. */
  lemma CloneAddressesEqualIff(address: string, dhcp: bool, i: int, j: int)
    requires ParseAddress(address).Some?
    ensures CloneAddress(address, dhcp, false, i) == CloneAddress(address, dhcp, false, j)
            <==> OffsetOf(i) % TWO32 == OffsetOf(j) % TWO32
  {
    var s, t := CloneAddress(address, dhcp, false, i), CloneAddress(address, dhcp, false, j);
    CloneOffset(address, dhcp, i);
    CloneOffset(address, dhcp, j);
    SameAddressIff(s, t);
    SameSumIff(ParseAddress(address).value, OffsetOf(i), OffsetOf(j));
  }

  /** Two numbers at distance `off` have the same quotient iff the lower remainder leaves room. */
  lemma SameQuotientIff(v: nat, size: nat, off: nat)
    requires size > 0
    ensures (v + off) / size == v / size <==> v % size + off < size
  {
    var q, host := v / size, v % size;
    assert v == size * q + host;
    if host + off < size {
      QuotientIs(v + off, size, q, host + off);
    }
  }

  lemma QuotientBound(v: nat, size: nat, networks: nat)
    requires size > 0 && v < size * networks
    ensures size * (v / size) + size <= size * networks
  {
    var q := v / size;
    Distribute(size, networks, q);
    Distribute(size, q, networks);
    if q >= networks {
      if q > networks { AtLeastOnce(size, q - networks); }
      assert false;
    } else {
      AtLeastOnce(size, networks - q);
    }
  }

  lemma WrappedHost(v: nat, w: nat, size: nat, back: nat)
    requires size > 0 && v == w + back
    ensures w / size == v / size <==> v % size >= back
  {
    assert v == size * (v / size) + v % size;
    assert w == size * (w / size) + w % size;
    if v % size >= back {
      QuotientIs(w, size, v / size, v % size - back);
    }
  }

  lemma SameNetworkIff(v: nat, off: nat, w: nat, size: nat, networks: nat)
    requires v < TWO32 && off < TWO32 && size > 0 && size * networks == TWO32
    requires w == (v + off) % TWO32
    ensures w / size == v / size <==> v % size + off < size || v % size + off >= TWO32
  {
    assert v == size * (v / size) + v % size;
    Wrapped(v + off);
    if v + off < TWO32 {
      SameQuotientIff(v, size, off);
      NotNegative(size, v / size);
    } else {
      // The clone wrapped around: it lies below the template, at distance TWO32 - off.
      QuotientBound(v, size, networks);
      WrappedHost(v, w, size, TWO32 - off);
    }
  }

  lemma NotNegative(a: nat, b: nat)
    ensures a * b >= 0
  {
  }

  /** A clone is in the template's network iff its host part plus the offset fits under the prefix,
      or the offset runs all the way round.  `size` is the number of addresses of the network and
      divides 2^32. */
  lemma CloneStaysInNetworkIff(address: string, dhcp: bool, i: int, size: nat, networks: nat)
    requires ParseAddress(address).Some? && 1 <= i <= TWO32
    requires size > 0 && size * networks == TWO32
    ensures var v := ParseAddress(address).value;
            var clone := ParseAddress(CloneAddress(address, dhcp, false, i));
            && clone.Some?
            && (clone.value / size == v / size <==> v % size + (i - 1) < size || v % size + (i - 1) >= TWO32)
  {
    CloneAddressMeaning(address, dhcp, i);
    PrintParse(address);
    var clone := ParseAddress(CloneAddress(address, dhcp, false, i));
    SameNetworkIff(ParseAddress(address).value, i - 1, clone.value, size, networks);
  }
}
