/** The memoising MAC address table of providers/network.go, keyed by "<nic>-<node index>". */
module MacTable {
  import opened Wrappers
  import opened Decimal

  type byte = b: nat | b < 256

  function Hex(n: nat): char
    requires n < 16
  {
    if n < 10 then '0' + n as char else 'a' + (n - 10) as char
  }

  function Hex2(b: byte): string { [Hex(b / 16), Hex(b % 16)] }

  /** Three random bytes, or the failure of the random source. */
  type Random = Option<(byte, byte, byte)>

  function RandomMac(r: (byte, byte, byte)): string {
    "00:16:3e:" + Hex2(r.0) + ":" + Hex2(r.1) + ":" + Hex2(r.2)
  }

  function HexValue(c: char): int { if '0' <= c <= '9' then c as int - '0' as int else c as int - 'a' as int + 10 }

  /** Two hexadecimal digits in lower case, the high one first. */
  predicate IsByte(s: string, b: byte) {
    && |s| == 2 && 16 * HexValue(s[0]) + HexValue(s[1]) == b
    && forall i :: 0 <= i < 2 ==> '0' <= s[i] <= '9' || 'a' <= s[i] <= 'f'
  }

  lemma HexDigit(n: nat)
    requires n < 16
    ensures HexValue(Hex(n)) == n && ('0' <= Hex(n) <= '9' || 'a' <= Hex(n) <= 'f')
  {
  }

  lemma Hex2Meaning(b: byte)
    ensures IsByte(Hex2(b), b)
  {
    HexDigit(b / 16);
    HexDigit(b % 16);
  }

  /** A generated address has the fixed prefix and tells its three bytes. */
  lemma RandomMacMeaning(r: (byte, byte, byte))
    ensures var m := RandomMac(r);
            && |m| == 17 && m[..9] == "00:16:3e:" && m[11] == ':' && m[14] == ':'
            && IsByte(m[9..11], r.0) && IsByte(m[12..14], r.1) && IsByte(m[15..], r.2)
  {
    Hex2Meaning(r.0);
    Hex2Meaning(r.1);
    Hex2Meaning(r.2);
    var m := RandomMac(r);
    assert m[9..11] == Hex2(r.0) && m[12..14] == Hex2(r.1) && m[15..] == Hex2(r.2);
  }

  /** `netName`. */
  function NetName(nic: string, index: int): string { nic + "-" + FormatInt(index) }

  /** The table and the address after asking for the address of a key. */
  function Generated(table: map<string, string>, key: string, random: Random): (map<string, string>, string) {
    if key in table then (table, table[key])
    else if random.None? then (table, "")
    else (table[key := RandomMac(random.value)], RandomMac(random.value))
  }

  class MacAddress {
    var addresses: map<string, string>

    constructor ()
      ensures addresses == map[]
    {
      addresses := map[];
    }

    method SetMacAddress(netName: string, address: string)
      modifies this
      ensures addresses == old(addresses)[netName := address]
    {
      addresses := addresses[netName := address];
    }

    method GenerateMacAddress(netName: string, random: Random) returns (address: string)
      modifies this
      ensures (addresses, address) == Generated(old(addresses), netName, random)
    {
      if netName in addresses {
        address := addresses[netName];
      } else {
        if random.None? {
          return "";
        }
        address := RandomMac(random.value);
        addresses := addresses[netName := address];
      }
    }
  }

  /******* Keys *******/

  lemma NoDash(n: nat)
    ensures '-' !in Format(n)
  {
    ParseFormat(n);
  }

  lemma DashIsLast(a: string, x: string)
    requires '-' !in x
    ensures var s := a + "-" + x; s[|a|] == '-' && forall k :: |a| < k < |s| ==> s[k] != '-'
  {
    assert forall k :: |a| < k < |a + "-" + x| ==> (a + "-" + x)[k] == x[k - |a| - 1];
  }

  lemma LastDash(a: string, x: string, b: string, y: string)
    requires a + "-" + x == b + "-" + y && '-' !in x && '-' !in y
    ensures a == b && x == y
  {
    var s := a + "-" + x;
    DashIsLast(a, x);
    DashIsLast(b, y);
    assert a == s[..|a|] && b == s[..|b|];
    assert x == s[|a| + 1..] && y == s[|b| + 1..];
  }

  /** Non-negative indices make the key injective, even when NIC names contain dashes and digits. */
  lemma NetNameInjective(nic: string, i: int, other: string, j: int)
    requires i >= 0 && j >= 0 && NetName(nic, i) == NetName(other, j)
    ensures nic == other && i == j
  {
    NoDash(i);
    NoDash(j);
    LastDash(nic, FormatInt(i), other, FormatInt(j));
    FormatIntInjective(i, j);
  }

  /** A negative index shares its key with the opposite index of the NIC name with a dash more. */
  lemma NegativeIndexCollides(nic: string, i: int)
    requires i > 0
    ensures NetName(nic, -i) == NetName(nic + "-", i)
  {
    assert nic + "-" + ("-" + Format(i)) == nic + "-" + "-" + Format(i);
  }

  /** One pair has the negated index of the other and the NIC name without a trailing dash. */
  predicate Mirrored(nic: string, i: int, other: string, j: int) { i < 0 && j == -i && other == nic + "-" }

  /** The key with the minus sign, if any, counted to the NIC name. */
  lemma NonNegativeForm(nic: string, i: int)
    ensures NetName(nic, i) == NetName(if i < 0 then nic + "-" else nic, if i < 0 then -i else i)
  {
    if i < 0 {
      NegativeIndexCollides(nic, -i);
    }
  }

  /** Exactly when two pairs share a key, for any indices; `GetMacAddress` refuses negative ones. */
  lemma SameKeyIff(nic: string, i: int, other: string, j: int)
    ensures NetName(nic, i) == NetName(other, j)
            <==> (nic == other && i == j) || Mirrored(nic, i, other, j) || Mirrored(other, j, nic, i)
  {
    NonNegativeForm(nic, i);
    NonNegativeForm(other, j);
    if NetName(nic, i) == NetName(other, j) {
      NetNameInjective(if i < 0 then nic + "-" else nic, if i < 0 then -i else i,
                       if j < 0 then other + "-" else other, if j < 0 then -j else j);
      if i < 0 && j < 0 {
        assert nic == (nic + "-")[..|nic|] && other == (other + "-")[..|other|];
      }
    }
  }

  /******* Any sequence of operations *******/

  datatype TableOp =
    | SetMac(nic: string, index: int, address: string)
    | Ask(nic: string, index: int, random: Random)

  predicate NonNegative(ops: seq<TableOp>) { forall k :: 0 <= k < |ops| ==> ops[k].index >= 0 }

  function Apply(table: map<string, string>, op: TableOp): map<string, string> {
    match op
    case SetMac(nic, index, address) => table[NetName(nic, index) := address]
    case Ask(nic, index, random) => Generated(table, NetName(nic, index), random).0
  }

  function ApplyAll(table: map<string, string>, ops: seq<TableOp>): map<string, string> {
    if ops == [] then table else Apply(ApplyAll(table, ops[..|ops| - 1]), ops[|ops| - 1])
  }

  lemma {:induction false} ApplyAllConcat(table: map<string, string>, a: seq<TableOp>, b: seq<TableOp>)
    ensures ApplyAll(table, a + b) == ApplyAll(ApplyAll(table, a), b)
  {
    if b == [] {
      assert a + b == a;
    } else {
      assert (a + b)[..|a + b| - 1] == a + b[..|b| - 1];
      ApplyAllConcat(table, a, b[..|b| - 1]);
    }
  }

  /** The address the operations set last for exactly this NIC and index. */
  function LastSet(ops: seq<TableOp>, nic: string, index: int): Option<string> {
    if ops == [] then None
    else
      var last := ops[|ops| - 1];
      if last.SetMac? && last.nic == nic && last.index == index then Some(last.address)
      else LastSet(ops[..|ops| - 1], nic, index)
  }

  lemma {:induction false} KnownAddressStays(table: map<string, string>, ops: seq<TableOp>, nic: string, index: nat)
    requires NetName(nic, index) in table && NonNegative(ops)
    ensures var key := NetName(nic, index);
            && key in ApplyAll(table, ops)
            && ApplyAll(table, ops)[key] == match LastSet(ops, nic, index) case Some(a) => a case None => table[key]
  {
    if ops != [] {
      var last := ops[|ops| - 1];
      KnownAddressStays(table, ops[..|ops| - 1], nic, index);
      if NetName(last.nic, last.index) == NetName(nic, index) {
        NetNameInjective(last.nic, last.index, nic, index);
      }
    }
  }

  /** Operation `p` sets the address of the NIC, and no later one touches it. */
  predicate SetsLast(ops: seq<TableOp>, p: nat, nic: string, index: int, address: string) {
    && p < |ops| && ops[p] == SetMac(nic, index, address)
    && forall q :: p < q < |ops| ==> ops[q].nic != nic
  }

  predicate Holds(table: map<string, string>, key: string, address: string) { key in table && table[key] == address }

  lemma OtherNicStays(table: map<string, string>, op: TableOp, nic: string, index: int, address: string)
    requires op.index == index && op.nic != nic && Holds(table, NetName(nic, index), address)
    ensures Holds(Apply(table, op), NetName(nic, index), address)
  {
    SameKeyIff(op.nic, op.index, nic, index);
  }

  /** Among operations of one node index, the last that sets the address of a NIC decides it. */
  lemma {:induction false} SetLastHolds(
    table: map<string, string>, ops: seq<TableOp>, p: nat, nic: string, index: int, address: string)
    requires SetsLast(ops, p, nic, index, address) && forall q :: 0 <= q < |ops| ==> ops[q].index == index
    ensures Holds(ApplyAll(table, ops), NetName(nic, index), address)
  {
    var front, last := ops[..|ops| - 1], ops[|ops| - 1];
    if p < |ops| - 1 {
      SetLastHolds(table, front, p, nic, index, address);
      OtherNicStays(ApplyAll(table, front), last, nic, index, address);
    }
  }

  /** Two requests for one NIC and node index get the same address, whatever happens in between,
      unless that very pair is set explicitly in between (then the second gets what was set last) or
      the first request fails for lack of randomness.  Other pairs cannot interfere. */
  lemma SamePairSameMac(
    table: map<string, string>, nic: string, index: nat, first: Random, ops: seq<TableOp>, second: Random)
    requires NonNegative(ops)
    ensures var key := NetName(nic, index);
            var (asked, address) := Generated(table, key, first);
            (key in table || first.Some?) ==>
              var later := ApplyAll(asked, ops);
              Generated(later, key, second) ==
              (later, match LastSet(ops, nic, index) case Some(a) => a case None => address)
  {
    var key := NetName(nic, index);
    if key in table || first.Some? {
      KnownAddressStays(Generated(table, key, first).0, ops, nic, index);
    }
  }
}
