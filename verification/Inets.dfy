/**
 What the operations of providers/network.go do to the value of a network interface, and the laws
 about these values.  The in-place operations on the heap objects are in module `Networks`.

 The fields `ConnectionType`, `BsdName` and `DisplayName`, which are only ever copied, are dropped.
 */
module Inets {
  import opened Wrappers
  import opened Ipv4
  import opened Cidr
  import opened Decimal
  import opened Strings

  datatype Route = Route(to: string, via: string, metric: int)

  datatype Dns = Dns(nameserver: seq<string>, search: seq<string>)

  datatype Inet = Inet(
    enabled: Option<bool>, primary: bool, existing: Option<bool>, networkName: string, adapter: string,
    macAddress: string, nicName: string, dhcp: bool, useDhcpRoutes: Option<bool>,
    ipAddress: string, netmask: string, routes: seq<Route>, nodeIndex: int)
  {
    predicate IsEnabled() { enabled != Some(false) }

    predicate IsUseRoutes() { useDhcpRoutes != Some(false) }
  }

  /******* Cloning *******/

  function ClonedInet(v: Inet, controlPlane: bool, nodeIndex: int): Inet {
    v.(ipAddress := CloneAddress(v.ipAddress, v.dhcp, controlPlane, nodeIndex), nodeIndex := nodeIndex)
  }

  function ClonedAll(vs: seq<Inet>, controlPlane: bool, nodeIndex: int): seq<Inet> {
    seq(|vs|, i requires 0 <= i < |vs| => ClonedInet(vs[i], controlPlane, nodeIndex))
  }

  /** Worker clones with distinct indices from 1 to 2^32 differ in every interface that carries an
      IPv4 address. */
  lemma ClonesHaveDistinctAddresses(vs: seq<Inet>, k: nat, i: int, j: int)
    requires k < |vs| && ParseAddress(vs[k].ipAddress).Some? && 1 <= i < j <= TWO32
    ensures ClonedAll(vs, false, i)[k].ipAddress != ClonedAll(vs, false, j)[k].ipAddress
  {
    CloneAddressesDistinct(vs[k].ipAddress, vs[k].dhcp, i, j);
  }

  /******* Loading *******/

  predicate Keyword(address: string) { ToLower(address) == "none" || ToLower(address) == "dhcp" }

  function LoadedInet(v: Inet): Inet {
    var w :=
      if ToLower(v.ipAddress) == "none" then v.(ipAddress := "", enabled := Some(false))
      else if ToLower(v.ipAddress) == "dhcp" then v.(dhcp := true, ipAddress := "")
      else if v.ipAddress == "" then v.(dhcp := true)
      else v;
    if w.dhcp && |w.routes| == 0 then w.(useDhcpRoutes := None) else w
  }

  function LoadedAll(vs: seq<Inet>): seq<Inet> {
    seq(|vs|, i requires 0 <= i < |vs| => LoadedInet(vs[i]))
  }

  /** What loading does to each field. */
  lemma LoadedMeaning(v: Inet)
    ensures var w, none, dhcp := LoadedInet(v), Says(v.ipAddress, "none"), Says(v.ipAddress, "dhcp");
            && w.enabled == (if none then Some(false) else v.enabled)
            && (w.dhcp <==> v.dhcp || dhcp || v.ipAddress == "")
            && w.ipAddress == (if none || dhcp then "" else v.ipAddress)
            && w.useDhcpRoutes == (if w.dhcp && v.routes == [] then None else v.useDhcpRoutes)
            && w == v.(enabled := w.enabled, dhcp := w.dhcp, ipAddress := w.ipAddress, useDhcpRoutes := w.useDhcpRoutes)
  {
    KeywordIff(v.ipAddress);
  }

  lemma KeywordIff(address: string)
    ensures ToLower(address) == "none" <==> Says(address, "none")
    ensures ToLower(address) == "dhcp" <==> Says(address, "dhcp")
    ensures !(Says(address, "none") && Says(address, "dhcp"))
  {
    ToLowerIff(address, "none");
    ToLowerIff(address, "dhcp");
    assert "none"[0] != "dhcp"[0];
  }

  /** Loading twice is the same as loading once, except for a "none" interface without DHCP: the
      second load takes its empty address for a wish for DHCP. */
  lemma LoadIdempotentIff(v: Inet)
    ensures LoadedInet(LoadedInet(v)) == LoadedInet(v) <==> ToLower(v.ipAddress) != "none" || v.dhcp
  {
  }

  /******* Configuring *******/

  /** A `ManagedNetworkInterface`, by what its getters return. */
  datatype Managed = Managed(
    networkName: string, dhcp: bool, address: string, netmask: string,
    useDhcpRoutes: Option<bool>, macAddress: string, adapter: string)

  /** What the common implementation of the getters makes of a specification
      (pkg/apis/nodemanager/v1alpha2/types.go 198-229): its netmask getter returns the address. */
  function FromCommon(networkName: string, dhcp: bool, ipv4Address: string, netmask: string): Managed {
    Managed(networkName, dhcp, ipv4Address, ipv4Address, Some(true), "", "")
  }

  function FindEnabled(vs: seq<Inet>, networkName: string): (r: Option<nat>)
    ensures r.Some? ==> r.value < |vs| && vs[r.value].IsEnabled() && vs[r.value].networkName == networkName
  {
    if vs == [] then None
    else if vs[0].IsEnabled() && vs[0].networkName == networkName then Some(0)
    else match FindEnabled(vs[1..], networkName)
      case None => None
      case Some(i) => Some(i + 1)
  }

  /** An interface given an address, or told to do without, when it is not to use DHCP. */
  function AddressedInet(v: Inet, address: string, netmask: string): Inet {
    if v.dhcp then v.(ipAddress := "")
    else if ToLower(address) == "none" then v.(enabled := Some(false), ipAddress := "")
    else if ToLower(address) == "dhcp" then v.(dhcp := true, ipAddress := "")
    else if |address| > 0 then v.(ipAddress := address, netmask := if |netmask| > 0 then netmask else v.netmask)
    else v
  }

  function HardwareInet(v: Inet, macAddress: string, adapter: string): Inet {
    v.(macAddress := if |macAddress| > 0 then macAddress else v.macAddress,
       adapter := if |adapter| > 0 then adapter else v.adapter)
  }

  function ConfiguredInet(v: Inet, m: Managed): Inet {
    var w := v.(dhcp := m.dhcp, useDhcpRoutes := m.useDhcpRoutes);
    HardwareInet(AddressedInet(w, m.address, m.netmask), m.macAddress, m.adapter)
  }

  function ConfiguredBy(vs: seq<Inet>, m: Managed): (r: seq<Inet>)
    ensures |r| == |vs|
  {
    match FindEnabled(vs, m.networkName)
    case None => vs
    case Some(i) => vs[i := ConfiguredInet(vs[i], m)]
  }

  function ConfiguredAll(vs: seq<Inet>, managed: seq<Managed>): (r: seq<Inet>)
    ensures |r| == |vs|
  {
    if managed == [] then vs
    else ConfiguredBy(ConfiguredAll(vs, managed[..|managed| - 1]), managed[|managed| - 1])
  }

  /** What a specification does to each field of its interface: DHCP takes the address away, and a netmask only
      comes with an address. */
  lemma ConfiguredMeaning(v: Inet, m: Managed)
    ensures var w, none, dhcp := ConfiguredInet(v, m), Says(m.address, "none"), Says(m.address, "dhcp");
            var given := !m.dhcp && m.address != "" && !none && !dhcp;
            && w.enabled == (if none && !m.dhcp then Some(false) else v.enabled)
            && (w.dhcp <==> m.dhcp || dhcp)
            && w.ipAddress == (if given then m.address else if m.dhcp || none || dhcp then "" else v.ipAddress)
            && w.netmask == (if given && m.netmask != "" then m.netmask else v.netmask)
            && w.useDhcpRoutes == m.useDhcpRoutes
            && w.macAddress == (if m.macAddress != "" then m.macAddress else v.macAddress)
            && w.adapter == (if m.adapter != "" then m.adapter else v.adapter)
            && w == Inet(w.enabled, v.primary, v.existing, v.networkName, w.adapter, w.macAddress, v.nicName, w.dhcp,
                         w.useDhcpRoutes, w.ipAddress, w.netmask, v.routes, v.nodeIndex)
  {
    KeywordIff(m.address);
  }

  /** The first enabled interface of the network. */
  predicate IsFirst(vs: seq<Inet>, networkName: string, i: nat) {
    && i < |vs| && vs[i].enabled != Some(false) && vs[i].networkName == networkName
    && forall j :: 0 <= j < i ==> vs[j].enabled == Some(false) || vs[j].networkName != networkName
  }

  lemma FirstInRest(vs: seq<Inet>, networkName: string, i: nat)
    requires vs != [] && i > 0 && (vs[0].enabled == Some(false) || vs[0].networkName != networkName)
    ensures IsFirst(vs, networkName, i) <==> IsFirst(vs[1..], networkName, i - 1)
  {
    assert forall j :: 0 < j < |vs| ==> vs[j] == vs[1..][j - 1];
  }

  lemma {:induction false} FindsFirst(vs: seq<Inet>, networkName: string)
    ensures var found := FindEnabled(vs, networkName);
            forall i: nat :: IsFirst(vs, networkName, i) <==> found == Some(i)
  {
    if vs != [] && !(vs[0].IsEnabled() && vs[0].networkName == networkName) {
      FindsFirst(vs[1..], networkName);
      forall i: nat ensures IsFirst(vs, networkName, i) <==> i > 0 && IsFirst(vs[1..], networkName, i - 1) {
        if i > 0 { FirstInRest(vs, networkName, i); }
      }
    }
  }

  /** A specification configures the first enabled interface of its network and leaves the others alone. */
  lemma ConfiguresFirst(vs: seq<Inet>, m: Managed, i: nat)
    requires i < |vs|
    ensures ConfiguredBy(vs, m)[i] == if IsFirst(vs, m.networkName, i) then ConfiguredInet(vs[i], m) else vs[i]
  {
    FindsFirst(vs, m.networkName);
  }

  /** Every call in a sequence of configure calls. */
  function ConfiguredCalls(vs: seq<Inet>, calls: seq<seq<Managed>>): (r: seq<Inet>)
    ensures |r| == |vs|
  {
    if calls == [] then vs
    else ConfiguredAll(ConfiguredCalls(vs, calls[..|calls| - 1]), calls[|calls| - 1])
  }

  /** No keyword is left as an address, and only interfaces are enabled that were so, and not "none",
      in `before`. */
  predicate Settled(before: seq<Inet>, vs: seq<Inet>) {
    |vs| == |before| &&
    forall i :: 0 <= i < |vs| ==>
      && !Keyword(vs[i].ipAddress)
      && (vs[i].IsEnabled() ==> before[i].IsEnabled() && ToLower(before[i].ipAddress) != "none")
  }

  lemma {:induction false} ConfigureKeepsSettled(before: seq<Inet>, vs: seq<Inet>, managed: seq<Managed>)
    requires Settled(before, vs)
    ensures Settled(before, ConfiguredAll(vs, managed))
  {
    if managed != [] {
      ConfigureKeepsSettled(before, vs, managed[..|managed| - 1]);
    }
  }

  /** After loading and any sequence of configure calls no interface holds a "none" or "dhcp" keyword
      as its address, in any case, and no disabled interface is enabled again. */
  lemma {:induction false} LoadedAndConfiguredIsSettled(vs: seq<Inet>, calls: seq<seq<Managed>>)
    ensures Settled(vs, ConfiguredCalls(LoadedAll(vs), calls))
  {
    if calls != [] {
      LoadedAndConfiguredIsSettled(vs, calls[..|calls| - 1]);
      ConfigureKeepsSettled(vs, ConfiguredCalls(LoadedAll(vs), calls[..|calls| - 1]), calls[|calls| - 1]);
    }
  }

  /** An interface given an IPv4 address through the common getters declares a prefix that is the
      number of one bits of its own address, whatever netmask was specified. */
  lemma ManagedPrefixIsFromAddress(v: Inet, ipv4Address: string, netmask: string)
    requires ParseAddress(ipv4Address).Some?
    ensures var w := ConfiguredInet(v, FromCommon(v.networkName, false, ipv4Address, netmask));
            && w.ipAddress == ipv4Address
            && ToCIDR(w.ipAddress, w.netmask) ==
               Some(ipv4Address + "/" + Format(BitsSet(ParseAddress(ipv4Address).value, 32)))
  {
    NotAKeyword(ipv4Address);
    PrefixIsPopulationCount(ipv4Address);
  }

  /** The common getters give an interface the routes of DHCP, and leave its MAC address and adapter alone. */
  lemma CommonMeaning(v: Inet, dhcp: bool, ipv4Address: string, netmask: string)
    ensures var w := ConfiguredInet(v, FromCommon(v.networkName, dhcp, ipv4Address, netmask));
            && w.useDhcpRoutes == Some(true) && w.macAddress == v.macAddress && w.adapter == v.adapter
            && (dhcp ==> w.dhcp && w.ipAddress == "")
            && FindEnabled([v], FromCommon(v.networkName, dhcp, ipv4Address, netmask).networkName) ==
               (if v.enabled != Some(false) then Some(0) else None)
  {
    ConfiguredMeaning(v, FromCommon(v.networkName, dhcp, ipv4Address, netmask));
  }

  /** The netmask an interface is meant to have after a specification: its own if none is specified. */
  function WantedNetmask(v: Inet, netmask: string): string { if |netmask| > 0 then netmask else v.netmask }

  /** The mask a netmask stands for: the class default if it is empty. */
  function MaskFor(address: string, netmask: string): string
    requires ParseAddress(address).Some?
  {
    if |netmask| == 0 then MaskString(address) else netmask
  }

  /** The number of one bits of a dotted quad; none for anything else. */
  function OneBits(mask: string): nat {
    if ParseAddress(mask).Some? then BitsSet(ParseAddress(mask).value, 32) else 0
  }

  /** So the declared prefix is that of the wanted netmask iff address and mask have equally many one
      bits. */
  lemma ManagedPrefixIsWantedIff(v: Inet, ipv4Address: string, netmask: string)
    requires ParseAddress(ipv4Address).Some?
    ensures var w := ConfiguredInet(v, FromCommon(v.networkName, false, ipv4Address, netmask));
            var wanted := WantedNetmask(v, netmask);
            ToCIDR(w.ipAddress, w.netmask) == ToCIDR(ipv4Address, wanted)
            <==> OneBits(ipv4Address) == OneBits(MaskFor(ipv4Address, wanted))
  {
    ManagedPrefixIsFromAddress(v, ipv4Address, netmask);
    var wanted := WantedNetmask(v, netmask);
    var mask := MaskFor(ipv4Address, wanted);
    PrefixIsPopulationCount(mask);
    assert ToCIDR(ipv4Address, wanted) == Some(ipv4Address + "/" + Format(OneBits(mask)));
    SamePrefixIff(ipv4Address, OneBits(ipv4Address), OneBits(mask));
  }

  lemma SamePrefixIff(address: string, m: nat, n: nat)
    ensures address + "/" + Format(m) == address + "/" + Format(n) <==> m == n
  {
    var s, t := address + "/" + Format(m), address + "/" + Format(n);
    assert s[|address| + 1..] == Format(m) && t[|address| + 1..] == Format(n);
    if s == t {
      FormatInjective(m, n);
    }
  }

  lemma NotAKeyword(address: string)
    requires ParseAddress(address).Some?
    ensures !Keyword(address) && |address| > 0
  {
    EmptyIsNoAddress();
    if |address| == 4 {
      FieldsAreShort(address);
    }
  }

  /** A dotted quad has three dots, so it is longer than a keyword. */
  lemma FieldsAreShort(address: string)
    requires ParseAddress(address).Some?
    ensures |address| >= 7
  {
    var f := Split(address);
    FourFields(f);
    JoinSplit(address);
    var t, u := f[1..], f[1..][1..];
    assert Join(f) == f[0] + "." + Join(t) && Join(t) == t[0] + "." + Join(u) && Join(u) == u[0] + "." + Join(u[1..]);
    assert |f[0]| > 0 && |t[0]| > 0 && |u[0]| > 0 && |u[1..][0]| > 0;
  }

  /******* The cloud-init declaration *******/

  /** `setName` is the name the adapter found by its MAC address gets. */
  datatype Adapter = Adapter(
    dhcp4: bool, noRoutes: bool, address: Option<(string, Option<string>)>, mac: Option<string>,
    setName: Option<string>, routes: seq<Route>, dns: Option<Dns>)

  predicate Declares(v: Inet) { v.IsEnabled() && |BeforeColon(v.nicName)| > 0 }

  /** Computing the CIDR form of the address panics. */
  predicate Panics(v: Inet) {
    Declares(v) && |v.ipAddress| > 0 && ToCIDR(v.ipAddress, v.netmask).None?
  }

  function MacFor(v: Inet, useMacAddress: bool): string {
    if useMacAddress && v.nodeIndex >= 0 then v.macAddress else ""
  }

  function AdapterOf(v: Inet, useMacAddress: bool, dns: Option<Dns>): Adapter
    requires !Panics(v) && Declares(v)
  {
    var mac := MacFor(v, useMacAddress);
    Adapter(
      |v.ipAddress| == 0 && v.dhcp,
      |v.ipAddress| == 0 && !v.IsUseRoutes(),
      if |v.ipAddress| == 0 then None
      else Some((ToCIDR(v.ipAddress, v.netmask).value, if |AfterColon(v.nicName)| > 0 then Some(v.nicName) else None)),
      if |mac| > 0 then Some(mac) else None, if |mac| > 0 then Some(BeforeColon(v.nicName)) else None,
      v.routes, dns)
  }

  predicate NoPanic(vs: seq<Inet>) { forall i :: 0 <= i < |vs| ==> !Panics(vs[i]) }

  function Declared(vs: seq<Inet>, useMacAddress: bool, dns: Option<Dns>): map<string, Adapter>
    requires NoPanic(vs)
  {
    if vs == [] then map[]
    else
      var front, last := Declared(vs[..|vs| - 1], useMacAddress, dns), vs[|vs| - 1];
      if Declares(last) then front[BeforeColon(last.nicName) := AdapterOf(last, useMacAddress, dns)] else front
  }

  predicate LastBearing(vs: seq<Inet>, name: string, i: nat) {
    && i < |vs| && Declares(vs[i]) && BeforeColon(vs[i].nicName) == name
    && forall j :: i < j < |vs| && Declares(vs[j]) ==> BeforeColon(vs[j].nicName) != name
  }

  lemma LastBearingSnoc(front: seq<Inet>, last: Inet, name: string, i: nat)
    ensures LastBearing(front + [last], name, i) <==>
            if Declares(last) && BeforeColon(last.nicName) == name then i == |front| else LastBearing(front, name, i)
  {
    var all := front + [last];
    assert all[|front|] == last;
    assert forall j :: 0 <= j < |front| ==> all[j] == front[j];
  }

  /** What a map of adapters has to say about one NIC prefix. */
  ghost predicate MapsToLast(
    m: map<string, Adapter>, vs: seq<Inet>, useMacAddress: bool, dns: Option<Dns>, name: string)
    requires NoPanic(vs)
  {
    && (name in m <==> exists i: nat :: LastBearing(vs, name, i))
    && forall i: nat :: LastBearing(vs, name, i) ==> name in m && m[name] == AdapterOf(vs[i], useMacAddress, dns)
  }

  lemma MapsToLastSnoc(
    m: map<string, Adapter>, vs: seq<Inet>, useMacAddress: bool, dns: Option<Dns>, name: string)
    requires NoPanic(vs) && vs != [] && MapsToLast(m, vs[..|vs| - 1], useMacAddress, dns, name)
    ensures var last := vs[|vs| - 1];
            MapsToLast(
              if Declares(last) then m[BeforeColon(last.nicName) := AdapterOf(last, useMacAddress, dns)] else m,
              vs, useMacAddress, dns, name)
  {
    var front, last := vs[..|vs| - 1], vs[|vs| - 1];
    assert vs == front + [last];
    forall i: nat
      ensures LastBearing(vs, name, i) <==>
              if Declares(last) && BeforeColon(last.nicName) == name then i == |front| else LastBearing(front, name, i)
    {
      LastBearingSnoc(front, last, name, i);
    }
    assert forall i :: 0 <= i < |front| ==> vs[i] == front[i];
    if Declares(last) && BeforeColon(last.nicName) == name {
      assert LastBearing(vs, name, |front|);
    }
  }

  /** Each NIC prefix is mapped to the last enabled interface bearing it, and to nothing else. */
  lemma {:induction false} DeclaredIsLastEnabled(vs: seq<Inet>, useMacAddress: bool, dns: Option<Dns>, name: string)
    requires NoPanic(vs)
    ensures MapsToLast(Declared(vs, useMacAddress, dns), vs, useMacAddress, dns, name)
  {
    if vs != [] {
      DeclaredIsLastEnabled(vs[..|vs| - 1], useMacAddress, dns, name);
      MapsToLastSnoc(Declared(vs[..|vs| - 1], useMacAddress, dns), vs, useMacAddress, dns, name);
    }
  }

  /** An enabled interface whose NIC name is `name`, or starts with it and a colon. */
  predicate BearsNic(v: Inet, name: string) {
    && v.enabled != Some(false) && name != "" && ':' !in name
    && name <= v.nicName && (|name| < |v.nicName| ==> v.nicName[|name|] == ':')
  }

  lemma BearsNicIff(v: Inet, name: string)
    ensures BearsNic(v, name) <==> Declares(v) && BeforeColon(v.nicName) == name
  {
    var i := FirstColon(v.nicName);
    BeforeColonIs(v.nicName, i);
    if BearsNic(v, name) {
      assert v.nicName[..|name|] == name;
      BeforeColonIs(v.nicName, |name|);
    }
  }

  /** The last enabled interface that bears a name. */
  predicate LastBearer(vs: seq<Inet>, name: string, i: nat) {
    i < |vs| && BearsNic(vs[i], name) && forall j :: i < j < |vs| ==> !BearsNic(vs[j], name)
  }

  lemma LastBearerIff(vs: seq<Inet>, name: string, i: nat)
    ensures LastBearer(vs, name, i) <==> LastBearing(vs, name, i)
  {
    forall j | 0 <= j < |vs| ensures BearsNic(vs[j], name) <==> Declares(vs[j]) && BeforeColon(vs[j].nicName) == name {
      BearsNicIff(vs[j], name);
    }
  }

  /** An interface is declared under a name: DHCP only without an address, the routes of DHCP refused only then
      too, the address with its prefix and with the NIC name as its label if that has text after its last
      colon, the MAC address if it is asked for and there is one, and the routes and DNS settings. */
  predicate DeclaredAs(v: Inet, name: string, useMacAddress: bool, dns: Option<Dns>, a: Adapter) {
    && (a.dhcp4 <==> v.dhcp && v.ipAddress == "")
    && (a.noRoutes <==> v.ipAddress == "" && v.useDhcpRoutes == Some(false))
    && (a.address.Some? <==> v.ipAddress != "")
    && (a.address.Some? ==>
          && ToCIDR(v.ipAddress, v.netmask) == Some(a.address.value.0)
          && a.address.value.1 ==
             if ':' in v.nicName && v.nicName[|v.nicName| - 1] != ':' then Some(v.nicName) else None)
    && a.mac == (if useMacAddress && 0 <= v.nodeIndex && v.macAddress != "" then Some(v.macAddress) else None)
    && a.setName == (if a.mac == None then None else Some(name))
    && a.routes == v.routes && a.dns == dns
  }

  lemma AdapterIsDeclaredAs(v: Inet, useMacAddress: bool, dns: Option<Dns>)
    requires Declares(v) && !Panics(v)
    ensures DeclaredAs(v, BeforeColon(v.nicName), useMacAddress, dns, AdapterOf(v, useMacAddress, dns))
  {
    HasSuffixIff(v.nicName);
  }

  lemma {:induction false} SomeLast(vs: seq<Inet>, name: string, k: nat)
    requires k < |vs| && BearsNic(vs[k], name)
    ensures exists i: nat :: LastBearer(vs, name, i)
    decreases |vs| - k
  {
    if j :| k < j < |vs| && BearsNic(vs[j], name) {
      SomeLast(vs, name, j);
    } else {
      assert LastBearer(vs, name, k);
    }
  }

  /** Each NIC prefix that some enabled interface bears is declared, and no other, and its adapter says in every
      field what the last such interface says. */
  lemma DeclarationMeaning(vs: seq<Inet>, useMacAddress: bool, dns: Option<Dns>, name: string)
    requires NoPanic(vs)
    ensures var declared := Declared(vs, useMacAddress, dns);
            && (name in declared <==> exists i :: 0 <= i < |vs| && BearsNic(vs[i], name))
            && forall i: nat :: LastBearer(vs, name, i) ==>
                 name in declared && DeclaredAs(vs[i], name, useMacAddress, dns, declared[name])
  {
    DeclaredIsLastEnabled(vs, useMacAddress, dns, name);
    forall i: nat ensures LastBearer(vs, name, i) <==> LastBearing(vs, name, i) {
      LastBearerIff(vs, name, i);
    }
    if k :| 0 <= k < |vs| && BearsNic(vs[k], name) {
      SomeLast(vs, name, k);
    }
    forall i: nat | LastBearing(vs, name, i)
      ensures DeclaredAs(vs[i], name, useMacAddress, dns, AdapterOf(vs[i], useMacAddress, dns))
    {
      AdapterIsDeclaredAs(vs[i], useMacAddress, dns);
    }
  }

  /** The declaration panics iff an enabled interface with a NIC name has no netmask, and an address that is no
      IPv4 address. */
  lemma PanicsIff(v: Inet)
    ensures Panics(v) <==>
            && v.enabled != Some(false) && v.nicName != "" && v.nicName[0] != ':'
            && v.ipAddress != "" && v.netmask == "" && ParseAddress(v.ipAddress) == None
  {
  }

  /** After loading and any configure calls, a NIC prefix is declared iff an enabled interface bears it.
      Its adapter, that of the last such interface, has an address iff the interface has one, which is
      no keyword, and asks for DHCP iff the interface wants DHCP and has no address.  An interface that
      was loaded as disabled or as "none" is never declared. */
  lemma DeclarationOfTemplate(
    vs: seq<Inet>, calls: seq<seq<Managed>>, useMacAddress: bool, dns: Option<Dns>, name: string)
    requires NoPanic(ConfiguredCalls(LoadedAll(vs), calls))
    ensures var final := ConfiguredCalls(LoadedAll(vs), calls);
            var declared := Declared(final, useMacAddress, dns);
            && (name in declared <==> exists i: nat :: LastBearing(final, name, i))
            && forall i: nat :: LastBearing(final, name, i) ==>
                 && vs[i].IsEnabled() && ToLower(vs[i].ipAddress) != "none"
                 && !Keyword(final[i].ipAddress)
                 && (declared[name].address.Some? <==> final[i].ipAddress != "")
                 && (declared[name].dhcp4 <==> final[i].dhcp && final[i].ipAddress == "")
  {
    LoadedAndConfiguredIsSettled(vs, calls);
    DeclaredIsLastEnabled(ConfiguredCalls(LoadedAll(vs), calls), useMacAddress, dns, name);
  }
}
