/**
 The heap objects of providers/network.go below a network: interfaces, and the cells they share.

 `Enabled`, `Existing` and `UseDhcpRoutes` are pointers to booleans, `Routes` is a slice, and the DNS
 settings are behind a pointer.  A clone holds the same pointers as its template; every interface that
 is switched off points to one global `FALSE`; and `UseDhcpRoutes` may be the specification's own
 pointer.  Methods assign these pointers but write through none of them: no cell is in a `modifies`.
 */
module Interfaces {
  import opened Wrappers
  import opened Cidr
  import opened Strings
  import opened Inets
  import opened MacTable
  import opened NetworkRuns

  /** A boolean behind a pointer. */
  class BoolCell {
    var value: bool

    constructor (value: bool)
      ensures this.value == value
    {
      this.value := value;
    }
  }

  function CellValue(cell: BoolCell?): Option<bool>
    reads cell
  {
    if cell == null then None else Some(cell.value)
  }

  ghost function CellSet(cell: BoolCell?): set<object> { if cell == null then {} else {cell} }

  /** The DNS settings of a template and of all its clones. */
  class Resolver {
    var nameserver: seq<string>
    var search: seq<string>

    constructor (dns: Dns)
      ensures Value() == dns
    {
      nameserver, search := dns.nameserver, dns.search;
    }

    function Value(): Dns
      reads this
    {
      Dns(nameserver, search)
    }
  }

  function ResolverValue(dns: Resolver?): Option<Dns>
    reads dns
  {
    if dns == null then None else Some(dns.Value())
  }

  /** What `GetUseDhcpRoutes` returns: the specification's own pointer, or a new one to true
      (pkg/apis/nodemanager/v1alpha2/types.go 219-221, 236-238). */
  datatype RoutesFlag = Own(cell: BoolCell?) | AlwaysTrue

  function FlagCell(flag: RoutesFlag): BoolCell? { if flag.Own? then flag.cell else null }

  function FlagValue(flag: RoutesFlag): Option<bool>
    reads FlagCell(flag)
  {
    if flag.Own? then CellValue(flag.cell) else Some(true)
  }

  method GetUseDhcpRoutes(flag: RoutesFlag) returns (cell: BoolCell?)
    ensures CellValue(cell) == FlagValue(flag)
    ensures flag.Own? ==> cell == flag.cell
  {
    if flag.Own? {
      return flag.cell;
    }
    cell := new BoolCell(true);
  }

  /** A `ManagedNetworkInterface` with the pointer it holds. */
  datatype Specification = Specification(
    networkName: string, dhcp: bool, address: string, netmask: string,
    useDhcpRoutes: RoutesFlag, macAddress: string, adapter: string)

  function SpecValue(s: Specification): Managed
    reads FlagCell(s.useDhcpRoutes)
  {
    Managed(s.networkName, s.dhcp, s.address, s.netmask, FlagValue(s.useDhcpRoutes), s.macAddress, s.adapter)
  }

  /** A declared adapter.  The source stores a pointer to the field `Routes`; no method assigns that
      field, so the slice in it stands for the pointer. */
  datatype Ethernet = Ethernet(
    dhcp4: bool, noRoutes: bool, address: Option<(string, Option<string>)>, mac: Option<string>,
    setName: Option<string>, routes: array?<Route>, dns: Option<Dns>)

  function EthernetValue(e: Ethernet): Adapter
    reads e.routes
  {
    Adapter(e.dhcp4, e.noRoutes, e.address, e.mac, e.setName, if e.routes == null then [] else e.routes[..], e.dns)
  }

  class NetworkInterface {
    var enabled: BoolCell?
    var primary: bool
    var existing: BoolCell?
    var networkName: string
    var adapter: string
    var macAddress: string
    var nicName: string
    var dhcp: bool
    var useDhcpRoutes: BoolCell?
    var ipAddress: string
    var netmask: string
    var routes: array<Route>
    var nodeIndex: int

    /** The value, read through the pointers. */
    function Value(): Inet
      reads this, enabled, existing, useDhcpRoutes, routes
    {
      Inet(CellValue(enabled), primary, CellValue(existing), networkName, adapter, macAddress, nicName, dhcp,
           CellValue(useDhcpRoutes), ipAddress, netmask, routes[..], nodeIndex)
    }

    /** The cells this interface points to. */
    ghost function Cells(): set<object>
      reads this
    {
      {routes} + CellSet(enabled) + CellSet(existing) + CellSet(useDhcpRoutes)
    }

    ghost predicate SharesPointers(other: NetworkInterface)
      reads this, other
    {
      && enabled == other.enabled && existing == other.existing
      && useDhcpRoutes == other.useDhcpRoutes && routes == other.routes
    }

    /** A copy shares every pointer. */
    constructor CopyOf(inet: NetworkInterface, address: string, nodeIndex: int)
      ensures Value() == inet.Value().(ipAddress := address, nodeIndex := nodeIndex)
      ensures SharesPointers(inet)
    {
      enabled, primary, existing := inet.enabled, inet.primary, inet.existing;
      networkName, adapter, macAddress, nicName := inet.networkName, inet.adapter, inet.macAddress, inet.nicName;
      dhcp, useDhcpRoutes, ipAddress, netmask := inet.dhcp, inet.useDhcpRoutes, address, inet.netmask;
      routes, this.nodeIndex := inet.routes, nodeIndex;
    }

    predicate IsEnabled()
      reads this, enabled
    {
      enabled == null || enabled.value
    }

    predicate IsUseRoutes()
      reads this, useDhcpRoutes
    {
      useDhcpRoutes == null || useDhcpRoutes.value
    }

    method DidLoad(FALSE: BoolCell)
      requires !FALSE.value
      modifies this
      ensures Value() == LoadedInet(old(Value()))
      ensures routes == old(routes) && existing == old(existing) && (enabled == old(enabled) || enabled == FALSE)
    {
      if ToLower(ipAddress) == "none" {
        ipAddress := "";
        enabled := FALSE;
      } else if ToLower(ipAddress) == "dhcp" {
        dhcp := true;
        ipAddress := "";
      } else if ipAddress == "" {
        dhcp := true;
      }
      if dhcp && routes.Length == 0 {
        useDhcpRoutes := null;
      }
    }

    method Address(address: string, netmask: string, FALSE: BoolCell)
      requires !FALSE.value
      modifies this
      ensures Value() == AddressedInet(old(Value()), address, netmask)
      ensures routes == old(routes) && existing == old(existing) && (enabled == old(enabled) || enabled == FALSE)
    {
      if dhcp {
        ipAddress := "";
      } else if ToLower(address) == "none" {
        enabled := FALSE;
        ipAddress := "";
      } else if ToLower(address) == "dhcp" {
        dhcp := true;
        ipAddress := "";
      } else if |address| > 0 {
        ipAddress := address;
        if |netmask| > 0 {
          this.netmask := netmask;
        }
      }
    }

    method Hardware(macAddress: string, adapter: string)
      modifies this
      ensures Value() == HardwareInet(old(Value()), macAddress, adapter)
      ensures routes == old(routes) && existing == old(existing) && enabled == old(enabled)
    {
      if |macAddress| > 0 {
        this.macAddress := macAddress;
      }
      if |adapter| > 0 {
        this.adapter := adapter;
      }
    }

    method Flags(network: Specification)
      modifies this
      ensures Value() == old(Value()).(dhcp := network.dhcp, useDhcpRoutes := FlagValue(network.useDhcpRoutes))
      ensures network.useDhcpRoutes.Own? ==> useDhcpRoutes == network.useDhcpRoutes.cell
      ensures routes == old(routes) && existing == old(existing) && enabled == old(enabled)
    {
      dhcp := network.dhcp;
      useDhcpRoutes := GetUseDhcpRoutes(network.useDhcpRoutes);
    }

    method Configure(network: Specification, FALSE: BoolCell)
      requires !FALSE.value
      modifies this
      ensures Value() == ConfiguredInet(old(Value()), SpecValue(network))
      ensures routes == old(routes) && existing == old(existing) && (enabled == old(enabled) || enabled == FALSE)
    {
      Flags(network);
      Address(network.address, network.netmask, FALSE);
      Hardware(network.macAddress, network.adapter);
    }

    method UpdateMacAddressTable(table: MacAddress)
      modifies table
      ensures table.addresses ==
              if Explicit(Value()) then old(table.addresses)[NetName(nicName, nodeIndex) := macAddress]
              else old(table.addresses)
    {
      var address := macAddress;
      if |address| > 0 && ToLower(address) != "generate" && ToLower(address) != "ignore" {
        table.SetMacAddress(NetName(nicName, nodeIndex), address);
      }
    }

    method Record(index: int, table: MacAddress)
      modifies this, table
      ensures Value() == old(Value()).(nodeIndex := index)
      ensures table.addresses == ApplyAll(old(table.addresses), RecordOp(Value()))
      ensures routes == old(routes) && existing == old(existing) && enabled == old(enabled)
    {
      nodeIndex := index;
      RecordOpMeaning(table.addresses, Value());
      if IsEnabled() {
        UpdateMacAddressTable(table);
      }
    }

    method AttachMacAddress(table: MacAddress, address: string)
      modifies table
      ensures table.addresses == old(table.addresses)[NetName(nicName, nodeIndex) := address]
    {
      table.SetMacAddress(NetName(nicName, nodeIndex), address);
    }

    method GetMacAddress(table: MacAddress, random: Random) returns (address: string)
      modifies this, table
      ensures (Value(), table.addresses) == Asked(old(Value()), old(table.addresses), random)
      ensures address == if nodeIndex < 0 || !IsEnabled() then "" else macAddress
      ensures routes == old(routes) && existing == old(existing) && enabled == old(enabled)
    {
      if nodeIndex < 0 || !IsEnabled() {
        return "";
      }
      address := macAddress;
      if ToLower(address) == "generate" {
        address := table.GenerateMacAddress(NetName(nicName, nodeIndex), random);
      } else if ToLower(address) == "ignore" {
        address := "";
      }
      macAddress := address;
    }

    /** The body of the loop of `GetCloudInitNetwork` after the MAC address: none if `ToCIDR` panics.
        The pointer `ethernet` is never nil where it is dereferenced. */
    method DeclareEthernet(address: string, dns: Resolver?, ghost useMacAddress: bool) returns (r: Option<Ethernet>)
      requires Declares(Value()) && address == MacFor(Value(), useMacAddress)
      ensures r.None? <==> Panics(Value())
      ensures r.Some? ==> EthernetValue(r.value) == AdapterOf(Value(), useMacAddress, ResolverValue(dns))
      ensures r.Some? ==> r.value.routes == null || r.value.routes == routes
    {
      var ethernet: Option<Ethernet> := None;
      if dhcp || |ipAddress| == 0 {
        ethernet := Some(Ethernet(dhcp, !IsUseRoutes(), None, None, None, null, None));
      }
      if |ipAddress| > 0 {
        var cidr := ToCIDR(ipAddress, netmask);
        if cidr.None? {
          return None;
        }
        var tag := if |AfterColon(nicName)| > 0 then Some(nicName) else None;
        ethernet := Some(Ethernet(false, false, Some((cidr.value, tag)), None, None, null, None));
      }
      if |address| != 0 {
        ethernet := Some(ethernet.value.(mac := Some(address), setName := Some(BeforeColon(nicName))));
      }
      if routes.Length != 0 {
        ethernet := Some(ethernet.value.(routes := routes));
      }
      if dns != null {
        ethernet := Some(ethernet.value.(dns := Some(dns.Value())));
      }
      return ethernet;
    }
  }
}
