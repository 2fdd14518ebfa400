/**
 Networks on the heap (providers/network.go): lists of interfaces that share cells with the interfaces
 of other networks, and the MAC table all networks share.
 */
module Networks {
  import opened Wrappers
  import opened Ipv4
  import opened Strings
  import opened Inets
  import opened MacTable
  import opened NetworkRuns
  import opened Interfaces

  /** After `k` rounds of `UpdateMacAddressTable`: the interfaces and the table. */
  ghost predicate Updating(vs: seq<Inet>, index: int, addresses: Table, k: nat, now: seq<Inet>, table: Table) {
    && k <= |vs| == |now|
    && (forall i :: 0 <= i < |vs| ==> now[i] == if i < k then vs[i].(nodeIndex := index) else vs[i])
    && table == ApplyAll(addresses, RecordOps(Indexed(vs, index), k))
  }

  lemma UpdatingNext(vs: seq<Inet>, index: int, addresses: Table, k: nat, now: seq<Inet>, table: Table)
    requires k < |vs| && Updating(vs, index, addresses, k, now, table)
    ensures var v := now[k].(nodeIndex := index);
            Updating(vs, index, addresses, k + 1, now[k := v], ApplyAll(table, RecordOp(v)))
  {
    ApplyAllConcat(addresses, RecordOps(Indexed(vs, index), k), RecordOp(Indexed(vs, index)[k]));
  }

  lemma UpdatingAll(vs: seq<Inet>, index: int, addresses: Table, now: seq<Inet>, table: Table)
    requires Updating(vs, index, addresses, |vs|, now, table)
    ensures now == Indexed(vs, index) && table == ApplyAll(addresses, RecordOps(Indexed(vs, index), |vs|))
  {
  }

  lemma DeclareStep(net: Net, table: Table, useMacAddress: bool, randoms: seq<Random>)
    ensures var (ws, ops, _) := Declaring(net.vs, table, useMacAddress, randoms, |net.vs|);
            Step(net, table, Declare(useMacAddress, randoms)) == (net.(vs := ws), ops)
  {
  }

  /** One more round: its interfaces, and its operations after those before. */
  lemma RoundStep(
    before: seq<Inet>, addresses: Table, useMacAddress: bool, randoms: seq<Random>, k: nat, vs: seq<Inet>, t: Table)
    requires k < |before|
    requires var (ws, ops, panicked) := Declaring(before, addresses, useMacAddress, randoms, k);
             ws == vs && t == ApplyAll(addresses, ops) && !panicked
    ensures var (ws, ops, panicked) := Declaring(before, addresses, useMacAddress, randoms, k + 1);
            var round := Round(vs, t, useMacAddress, RandomAt(randoms, k), k);
            && ws == round.0 && (panicked <==> round.2)
            && ApplyAll(addresses, ops) == ApplyAll(t, round.1)
            && ws[..k] == vs[..k]
  {
    var round := Round(vs, t, useMacAddress, RandomAt(randoms, k), k);
    RoundLeavesOthers(vs, t, useMacAddress, RandomAt(randoms, k), k);
    ApplyAllConcat(addresses, Declaring(before, addresses, useMacAddress, randoms, k).1, round.1);
  }

  lemma PanicEnds(before: seq<Inet>, addresses: Table, useMacAddress: bool, randoms: seq<Random>, k: nat)
    requires k <= |before| && Declaring(before, addresses, useMacAddress, randoms, k).2
    ensures Declaring(before, addresses, useMacAddress, randoms, |before|) ==
            Declaring(before, addresses, useMacAddress, randoms, k)
  {
    PanicStays(before, addresses, useMacAddress, randoms, k, |before|,
               Declaring(before, addresses, useMacAddress, randoms, k));
  }

  lemma EnabledAlike(inet: NetworkInterface)
    ensures inet.IsEnabled() <==> inet.Value().IsEnabled()
  {
  }

  lemma MeaningsUpdate(ethernets: map<string, Ethernet>, name: string, e: Ethernet)
    ensures Meanings(ethernets[name := e]) == Meanings(ethernets)[name := EthernetValue(e)]
  {
  }

  lemma AskedDeclaresAlike(v: Inet, table: Table, random: Random)
    ensures var w := Asked(v, table, random).0; (Declares(w) <==> Declares(v)) && (Panics(w) <==> Panics(v))
  {
  }

  lemma RoundLeavesOthers(vs: seq<Inet>, table: Table, useMacAddress: bool, random: Random, k: nat)
    requires k < |vs|
    ensures forall i :: 0 <= i < |vs| && i != k ==>
              Round(vs, table, useMacAddress, random, k).0[i] == vs[i]
  {
  }

  lemma {:induction false} PanicStays(
    vs: seq<Inet>, table: Table, useMacAddress: bool, randoms: seq<Random>, k: nat, n: nat,
    stopped: (seq<Inet>, seq<TableOp>, bool))
    requires k <= n <= |vs| && Declaring(vs, table, useMacAddress, randoms, k) == stopped && stopped.2
    ensures Declaring(vs, table, useMacAddress, randoms, n) == stopped
    decreases n - k
  {
    if k < n {
      PanicStaysOnce(vs, table, useMacAddress, randoms, k, stopped);
      PanicStays(vs, table, useMacAddress, randoms, k + 1, n, stopped);
    }
  }

  lemma LoadedSnoc(vs: seq<Inet>, k: nat)
    requires k < |vs|
    ensures (LoadedAll(vs[..k]) + vs[k..])[k := LoadedInet(vs[k])] == LoadedAll(vs[..k + 1]) + vs[k + 1..]
  {
  }

  lemma DeclaredSnoc(vs: seq<Inet>, useMacAddress: bool, dns: Option<Dns>, k: nat)
    requires k < |vs| && NoPanic(vs[..k]) && !Panics(vs[k])
    ensures NoPanic(vs[..k + 1])
    ensures var front := Declared(vs[..k], useMacAddress, dns);
            Declared(vs[..k + 1], useMacAddress, dns) ==
            if Declares(vs[k]) then front[BeforeColon(vs[k].nicName) := AdapterOf(vs[k], useMacAddress, dns)]
            else front
  {
    assert vs[..k + 1] == vs[..k] + [vs[k]];
    assert vs[..k + 1][..k] == vs[..k];
  }

  ghost function SpecValues(managed: seq<Specification>): (r: seq<Managed>)
    reads FlagCells(managed)
    ensures |r| == |managed|
  {
    seq(|managed|, k requires 0 <= k < |managed| reads FlagCells(managed) => SpecValue(managed[k]))
  }

  ghost function FlagCells(managed: seq<Specification>): set<BoolCell?> {
    set k | 0 <= k < |managed| :: FlagCell(managed[k].useDhcpRoutes)
  }

  /** A call, with the pointers it is given. */
  datatype Action =
    | LoadAction
    | ConfigureAction(managed: seq<Specification>)
    | UpdateTableAction
    | AttachAction(at: nat, address: string)
    | AskMacAction(at: nat, random: Random)
    | DeclareAction(useMacAddress: bool, randoms: seq<Random>)

  ghost function ActionCells(action: Action): set<BoolCell?> {
    if action.ConfigureAction? then FlagCells(action.managed) else {}
  }

  ghost function OpOf(action: Action): Op
    reads ActionCells(action)
  {
    match action
    case LoadAction => Load
    case ConfigureAction(managed) => Configure(SpecValues(managed))
    case UpdateTableAction => UpdateTable
    case AttachAction(at, address) => Attach(at, address)
    case AskMacAction(at, random) => NetworkRuns.AskMac(at, random)
    case DeclareAction(useMacAddress, randoms) => Declare(useMacAddress, randoms)
  }

  /** The cells the interfaces point to. */
  ghost function Cells(interfaces: seq<NetworkInterface>): set<object>
    reads interfaces
  {
    set i, c | 0 <= i < |interfaces| && c in interfaces[i].Cells() :: c
  }

  ghost function Meanings(ethernets: map<string, Ethernet>): map<string, Adapter>
    reads set k | k in ethernets && ethernets[k].routes != null :: ethernets[k].routes
  {
    map k | k in ethernets :: EthernetValue(ethernets[k])
  }

  method CloneInterface(inet: NetworkInterface, controlPlane: bool, nodeIndex: int) returns (clone: NetworkInterface)
    ensures fresh(clone) && clone.SharesPointers(inet)
    ensures clone.Value() == ClonedInet(inet.Value(), controlPlane, nodeIndex)
  {
    var address := CloneAddress(inet.ipAddress, inet.dhcp, controlPlane, nodeIndex);
    clone := new NetworkInterface.CopyOf(inet, address, nodeIndex);
  }

  /** A network's own fields never change: only its interfaces do. */
  class Network {
    const domain: string
    const interfaces: seq<NetworkInterface>
    const dns: Resolver?
    const nodeIndex: int
    const controlPlane: bool

    constructor (
      domain: string, dns: Resolver?, interfaces: seq<NetworkInterface>, controlPlane: bool, nodeIndex: int)
      ensures this.domain == domain && this.dns == dns && this.interfaces == interfaces
      ensures this.controlPlane == controlPlane && this.nodeIndex == nodeIndex
    {
      this.domain, this.dns, this.interfaces := domain, dns, interfaces;
      this.controlPlane, this.nodeIndex := controlPlane, nodeIndex;
    }

    /** No interface is listed twice. */
    ghost predicate Valid() { forall i, j :: 0 <= i < j < |interfaces| ==> interfaces[i] != interfaces[j] }

    /** What the interfaces hold, read through their pointers. */
    ghost function Values(): (vs: seq<Inet>)
      reads interfaces, Cells(interfaces)
      ensures |vs| == |interfaces|
    {
      seq(|interfaces|, i requires 0 <= i < |interfaces| reads interfaces, Cells(interfaces) =>
        assert forall c :: c in interfaces[i].Cells() ==> c in Cells(interfaces);
        interfaces[i].Value())
    }

    ghost function State(): Net
      reads interfaces, Cells(interfaces)
    {
      Net(nodeIndex, Values())
    }

    /** The slices the interfaces hold; no method assigns them. */
    ghost function Slices(): seq<array<Route>>
      reads interfaces
    {
      seq(|interfaces|, i requires 0 <= i < |interfaces| reads interfaces => interfaces[i].routes)
    }

    /** A clone has interfaces of its own, but each holds the pointers of the one it is copied from, and
        the clone those of its template: the cells are shared, not copied. */
    method Clone(controlPlane: bool, nodeIndex: int) returns (copy: Network)
      ensures fresh(copy) && fresh(copy.interfaces) && copy.Valid()
      ensures copy.domain == domain && copy.dns == dns && |copy.interfaces| == |interfaces|
      ensures copy.controlPlane == controlPlane && copy.nodeIndex == nodeIndex
      ensures copy.Values() == ClonedAll(Values(), controlPlane, nodeIndex)
      ensures forall i :: 0 <= i < |interfaces| ==> copy.interfaces[i].SharesPointers(interfaces[i])
    {
      var clones: seq<NetworkInterface> := [];
      for k := 0 to |interfaces|
        invariant |clones| == k && fresh(clones)
        invariant forall i, j :: 0 <= i < j < k ==> clones[i] != clones[j]
        invariant forall i :: 0 <= i < k ==> clones[i].SharesPointers(interfaces[i])
        invariant forall i :: 0 <= i < k ==>
                    clones[i].Value() == ClonedInet(interfaces[i].Value(), controlPlane, nodeIndex)
      {
        var clone := CloneInterface(interfaces[k], controlPlane, nodeIndex);
        clones := clones + [clone];
      }
      copy := new Network(domain, dns, clones, controlPlane, nodeIndex);
    }

    method InterfaceByName(networkName: string) returns (found: NetworkInterface?)
      ensures match FindEnabled(Values(), networkName)
              case None => found == null
              case Some(i) => found == interfaces[i]
    {
      for k := 0 to |interfaces|
        invariant forall j :: 0 <= j < k ==>
                    Values()[j].enabled == Some(false) || Values()[j].networkName != networkName
      {
        EnabledAlike(interfaces[k]);
        assert Values()[k] == interfaces[k].Value();
        if interfaces[k].IsEnabled() && interfaces[k].networkName == networkName {
          FindsFirst(Values(), networkName);
          assert IsFirst(Values(), networkName, k);
          return interfaces[k];
        }
      }
      FindsFirst(Values(), networkName);
      return null;
    }

    method ConfigurationDidLoad(FALSE: BoolCell)
      requires Valid() && !FALSE.value
      modifies interfaces
      ensures Values() == LoadedAll(old(Values())) && Slices() == old(Slices())
    {
      ghost var vs, slices := Values(), Slices();
      for k := 0 to |interfaces|
        invariant Values() == LoadedAll(vs[..k]) + vs[k..] && Slices() == slices
      {
        LoadOne(k, FALSE);
        LoadedSnoc(vs, k);
      }
      assert vs[..|interfaces|] == vs;
    }

    method LoadOne(k: nat, FALSE: BoolCell)
      requires Valid() && k < |interfaces| && !FALSE.value
      modifies interfaces
      ensures Values() == old(Values())[k := LoadedInet(old(Values())[k])] && Slices() == old(Slices())
    {
      ghost var vs := Values();
      interfaces[k].DidLoad(FALSE);
      assert Values() == vs[k := LoadedInet(vs[k])];
    }

    method ConfigureAt(ghost at: nat, inet: NetworkInterface, network: Specification, FALSE: BoolCell)
      requires Valid() && at < |interfaces| && inet == interfaces[at] && !FALSE.value
      modifies interfaces
      ensures Values() == old(Values())[at := ConfiguredInet(old(Values())[at], SpecValue(network))]
      ensures Slices() == old(Slices())
    {
      ghost var vs := Values();
      inet.Configure(network, FALSE);
      assert Values() == vs[at := ConfiguredInet(vs[at], SpecValue(network))];
    }

    method ConfigureOne(network: Specification, FALSE: BoolCell, ghost m: Managed)
      requires Valid() && !FALSE.value && m == SpecValue(network)
      modifies interfaces
      ensures Values() == ConfiguredBy(old(Values()), m) && Slices() == old(Slices())
    {
      ghost var vs := Values();
      var inet := InterfaceByName(network.networkName);
      assert Values() == vs;
      ghost var found := FindEnabled(Values(), network.networkName);
      if inet != null {
        EnabledAlike(inet);
        if inet.IsEnabled() {
          ConfigureAt(found.value, inet, network, FALSE);
        }
      }
    }

    method ConfigureManagedNetwork(managed: seq<Specification>, FALSE: BoolCell)
      requires Valid() && !FALSE.value
      modifies interfaces
      ensures Values() == ConfiguredAll(old(Values()), SpecValues(managed)) && Slices() == old(Slices())
      ensures SpecValues(managed) == old(SpecValues(managed))
    {
      ghost var vs, ms, slices := Values(), SpecValues(managed), Slices();
      for k := 0 to |managed|
        invariant Values() == ConfiguredAll(vs, ms[..k]) && Slices() == slices && SpecValues(managed) == ms
      {
        assert ms[k] == SpecValue(managed[k]);
        ConfigureOne(managed[k], FALSE, ms[k]);
        assert ms[..k + 1][..k] == ms[..k];
      }
      assert ms[..|managed|] == ms;
    }

    /** One round of `UpdateMacAddressTable`; `ops` are the table operations of the rounds before. */
    method RecordOne(k: nat, table: MacAddress)
      requires Valid() && k < |interfaces|
      modifies interfaces, table
      ensures var v := old(Values())[k].(nodeIndex := nodeIndex);
              && Values() == old(Values())[k := v]
              && table.addresses == ApplyAll(old(table.addresses), RecordOp(v))
      ensures Slices() == old(Slices())
    {
      ghost var vs := Values();
      interfaces[k].Record(nodeIndex, table);
      assert Values() == vs[k := vs[k].(nodeIndex := nodeIndex)];
    }

    method UpdateMacAddressTable(table: MacAddress)
      requires Valid()
      modifies interfaces, table
      ensures Values() == Indexed(old(Values()), nodeIndex)
      ensures table.addresses == ApplyAll(old(table.addresses), RecordOps(Values(), |interfaces|))
      ensures Slices() == old(Slices())
    {
      ghost var vs, addresses, slices := Values(), table.addresses, Slices();
      for k := 0 to |interfaces|
        invariant Updating(vs, nodeIndex, addresses, k, Values(), table.addresses) && Slices() == slices
      {
        UpdatingNext(vs, nodeIndex, addresses, k, Values(), table.addresses);
        RecordOne(k, table);
      }
      UpdatingAll(vs, nodeIndex, addresses, Values(), table.addresses);
    }

    method AskMac(at: nat, table: MacAddress, random: Random)
      requires Valid()
      modifies interfaces, table
      ensures Values() == AskedAt(old(Values()), old(table.addresses), at, random).0
      ensures table.addresses == ApplyAll(old(table.addresses), AskOpsAt(old(Values()), at, random))
      ensures Slices() == old(Slices())
    {
      if at < |interfaces| {
        ghost var before := Values();
        AskOpsMeaning(before[at], table.addresses, random);
        var _ := interfaces[at].GetMacAddress(table, random);
        assert Values() == before[at := Asked(before[at], old(table.addresses), random).0];
      }
    }

    method AttachMac(at: nat, address: string, table: MacAddress)
      modifies table
      ensures table.addresses == ApplyAll(old(table.addresses), AttachOps(Values(), at, address))
    {
      if at < |interfaces| {
        OneOp(table.addresses, SetMac(interfaces[at].nicName, interfaces[at].nodeIndex, address));
        interfaces[at].AttachMacAddress(table, address);
      }
    }

    method MacOf(k: nat, useMacAddress: bool, table: MacAddress, random: Random) returns (address: string)
      requires Valid() && k < |interfaces|
      requires Declares(Values()[k])
      modifies interfaces, table
      ensures Values() ==
              if useMacAddress then AskedAt(old(Values()), old(table.addresses), k, random).0 else old(Values())
      ensures table.addresses ==
              ApplyAll(old(table.addresses), if useMacAddress then AskOps(old(Values()[k]), random) else [])
      ensures interfaces[k].nicName == old(interfaces[k].nicName)
      ensures Declares(Values()[k]) && (Panics(Values()[k]) <==> old(Panics(Values()[k])))
      ensures address == MacFor(Values()[k], useMacAddress)
      ensures Slices() == old(Slices())
    {
      address := "";
      if useMacAddress {
        ghost var vs, t := Values(), table.addresses;
        AskedDeclaresAlike(vs[k], t, random);
        AskOpsMeaning(vs[k], t, random);
        address := interfaces[k].GetMacAddress(table, random);
        assert Values() == vs[k := Asked(vs[k], t, random).0];
      }
    }

    /** One round of `GetCloudInitNetwork`: whether it panics, and the adapter it declares, if any. */
    method DeclareOne(k: nat, useMacAddress: bool, table: MacAddress, random: Random)
      returns (panics: bool, ethernet: Option<Ethernet>)
      requires Valid() && k < |interfaces|
      modifies interfaces, table
      ensures var round := Round(old(Values()), old(table.addresses), useMacAddress, random, k);
              && Values() == round.0 && (panics <==> round.2)
              && table.addresses == ApplyAll(old(table.addresses), round.1)
      ensures Slices() == old(Slices())
      ensures var v := Values()[k];
              && (panics <==> Panics(v))
              && (!panics ==>
                    && (ethernet.Some? <==> Declares(v))
                    && (Declares(v) ==>
                          EthernetValue(ethernet.value) == AdapterOf(v, useMacAddress, ResolverValue(dns))))
    {
      panics, ethernet := false, None;
      var n := interfaces[k];
      EnabledAlike(n);
      if n.IsEnabled() && |BeforeColon(n.nicName)| > 0 {
        var address := MacOf(k, useMacAddress, table, random);
        ethernet := n.DeclareEthernet(address, dns, useMacAddress);
        panics := ethernet.None?;
      }
    }

    /** One round, from the adapters declared so far to those declared after it, or none if it panics. */
    method DeclareNext(
      k: nat, ethernets: map<string, Ethernet>, useMacAddress: bool, table: MacAddress, random: Random
    ) returns (r: Option<map<string, Ethernet>>)
      requires Valid() && k < |interfaces|
      modifies interfaces, table
      ensures var round := Round(old(Values()), old(table.addresses), useMacAddress, random, k);
              && Values() == round.0 && (r.None? <==> round.2)
              && table.addresses == ApplyAll(old(table.addresses), round.1)
      ensures Slices() == old(Slices())
      ensures var v := Values()[k];
              && (r.None? <==> Panics(v))
              && (r.Some? ==>
                    var before := old(Meanings(ethernets));
                    Meanings(r.value) ==
                    if Declares(v)
                    then before[BeforeColon(v.nicName) := AdapterOf(v, useMacAddress, ResolverValue(dns))]
                    else before)
    {
      ghost var meanings := Meanings(ethernets);
      var panics, ethernet := DeclareOne(k, useMacAddress, table, random);
      assert Meanings(ethernets) == meanings;
      if panics {
        r := None;
      } else if ethernet.Some? {
        var nicName := BeforeColon(interfaces[k].nicName);
        MeaningsUpdate(ethernets, nicName, ethernet.value);
        r := Some(ethernets[nicName := ethernet.value]);
      } else {
        r := Some(ethernets);
      }
    }

    /** The declaration, or none if it panics, which it does iff some enabled interface with a NIC name
        has an address but neither a netmask nor a readable address. */
    method GetCloudInitNetwork(useMacAddress: bool, table: MacAddress, randoms: seq<Random>)
      returns (r: Option<map<string, Ethernet>>)
      requires Valid()
      modifies interfaces, table
      ensures var (vs, ops, panicked) :=
                Declaring(old(Values()), old(table.addresses), useMacAddress, randoms, |interfaces|);
              && Values() == vs && (r.None? <==> panicked)
              && table.addresses == ApplyAll(old(table.addresses), ops)
      ensures r.Some? <==> NoPanic(Values())
      ensures r.Some? ==> Meanings(r.value) == Declared(Values(), useMacAddress, ResolverValue(dns))
      ensures Slices() == old(Slices())
    {
      ghost var before, addresses, slices, settings := Values(), table.addresses, Slices(), ResolverValue(dns);
      var ethernets: map<string, Ethernet> := map[];
      for k := 0 to |interfaces|
        invariant var (vs, ops, panicked) := Declaring(before, addresses, useMacAddress, randoms, k);
                  Values() == vs && table.addresses == ApplyAll(addresses, ops) && !panicked
        invariant NoPanic(Values()[..k]) && Meanings(ethernets) == Declared(Values()[..k], useMacAddress, settings)
        invariant Slices() == slices && ResolverValue(dns) == settings
      {
        RoundStep(before, addresses, useMacAddress, randoms, k, Values(), table.addresses);
        var next := DeclareNext(k, ethernets, useMacAddress, table, RandomAt(randoms, k));
        if next.None? {
          PanicEnds(before, addresses, useMacAddress, randoms, k + 1);
          return None;
        }
        DeclaredSnoc(Values(), useMacAddress, settings, k);
        ethernets := next.value;
      }
      assert Values()[..|interfaces|] == Values();
      r := Some(ethernets);
    }

    /** Loading and configuring leave the table alone. */
    method DoSetUp(action: Action, FALSE: BoolCell)
      requires Valid() && !FALSE.value && (action.LoadAction? || action.ConfigureAction?)
      modifies interfaces
      ensures forall table :: (State(), []) == Step(old(State()), table, old(OpOf(action)))
      ensures Slices() == old(Slices())
    {
      if action.LoadAction? {
        ConfigurationDidLoad(FALSE);
      } else {
        ConfigureManagedNetwork(action.managed, FALSE);
      }
    }

    /** The declaration itself is not part of the state. */
    method DoDeclare(useMacAddress: bool, randoms: seq<Random>, table: MacAddress)
      requires Valid()
      modifies interfaces, table
      ensures var (net, ops) := Step(old(State()), old(table.addresses), Declare(useMacAddress, randoms));
              State() == net && table.addresses == ApplyAll(old(table.addresses), ops)
      ensures Slices() == old(Slices())
    {
      DeclareStep(State(), table.addresses, useMacAddress, randoms);
      var _ := GetCloudInitNetwork(useMacAddress, table, randoms);
    }

    /** Any one call does to the objects what `Step` does to their values. */
    method Do(action: Action, FALSE: BoolCell, table: MacAddress)
      requires Valid() && !FALSE.value
      modifies interfaces, table
      ensures var (net, ops) := Step(old(State()), old(table.addresses), old(OpOf(action)));
              State() == net && table.addresses == ApplyAll(old(table.addresses), ops)
      ensures Slices() == old(Slices())
    {
      match action {
        case LoadAction => DoSetUp(action, FALSE);
        case ConfigureAction(_) => DoSetUp(action, FALSE);
        case UpdateTableAction => UpdateMacAddressTable(table);
        case AttachAction(at, address) => AttachMac(at, address, table);
        case AskMacAction(at, random) => AskMac(at, table, random);
        case DeclareAction(useMacAddress, randoms) => DoDeclare(useMacAddress, randoms, table);
      }
    }
  }
  /******* Clones and their template *******/

  ghost function Owned(nets: seq<Network>): set<NetworkInterface> {
    set k, i | 0 <= k < |nets| && 0 <= i < |nets[k].interfaces| :: nets[k].interfaces[i]
  }

  /** The cells behind several networks; clones of one template have them in common. */
  ghost function AllCells(nets: seq<Network>): set<object>
    reads Owned(nets)
  {
    set x, c | x in Owned(nets) && c in x.Cells() :: c
  }

  lemma OwnedSnoc(nets: seq<Network>, last: Network)
    ensures Owned(nets + [last]) == Owned(nets) + set x | x in last.interfaces
  {
    var all := nets + [last];
    forall x | x in Owned(nets) ensures x in Owned(all) {
      var k, i :| 0 <= k < |nets| && 0 <= i < |nets[k].interfaces| && nets[k].interfaces[i] == x;
      assert all[k].interfaces[i] == x;
    }
    forall x | x in last.interfaces ensures x in Owned(all) {
      assert all[|nets|] == last;
    }
  }

  /** No interface is listed twice, within one network or in two.  Their cells may well be shared. */
  ghost predicate Separate(nets: seq<Network>) {
    && (forall k :: 0 <= k < |nets| ==> nets[k].Valid())
    && forall j, k :: 0 <= j < k < |nets| ==>
         forall i, l :: 0 <= i < |nets[j].interfaces| && 0 <= l < |nets[k].interfaces| ==>
           nets[j].interfaces[i] != nets[k].interfaces[l]
  }

  lemma SeparateSnoc(nets: seq<Network>, last: Network)
    requires Separate(nets) && last.Valid() && forall x :: x in last.interfaces ==> x !in Owned(nets)
    ensures Separate(nets + [last])
  {
    forall j, i, l | 0 <= j < |nets| && 0 <= i < |nets[j].interfaces| && 0 <= l < |last.interfaces|
      ensures nets[j].interfaces[i] != last.interfaces[l]
    {
      assert nets[j].interfaces[i] in Owned(nets);
      assert last.interfaces[l] in last.interfaces;
    }
  }

  lemma OwnsAll(nets: seq<Network>, k: nat)
    requires k < |nets|
    ensures forall x :: x in nets[k].interfaces ==> x in Owned(nets)
    ensures Cells(nets[k].interfaces) <= AllCells(nets)
  {
    assert forall x :: x in nets[k].interfaces ==> x in Owned(nets);
  }

  ghost function States(nets: seq<Network>): (r: seq<Net>)
    reads Owned(nets), AllCells(nets)
    ensures |r| == |nets|
  {
    seq(|nets|, k requires 0 <= k < |nets| reads Owned(nets), AllCells(nets) =>
      OwnsAll(nets, k);
      nets[k].State())
  }

  /** A call of a script, with the pointers it is given. */
  datatype ActionOn = ActionOn(net: nat, action: Action)

  ghost function ScriptCells(script: seq<ActionOn>): set<BoolCell?> {
    set n, c | 0 <= n < |script| && c in ActionCells(script[n].action) :: c
  }

  ghost function CallsOf(script: seq<ActionOn>): (r: seq<Call>)
    reads ScriptCells(script)
    ensures |r| == |script|
  {
    seq(|script|, n requires 0 <= n < |script| reads ScriptCells(script) =>
      assert ActionCells(script[n].action) <= ScriptCells(script);
      Call(script[n].net, OpOf(script[n].action)))
  }

  /** What a script asks for does not change as long as no cell does. */
  twostate lemma CallsKept(script: seq<ActionOn>)
    requires forall cell: BoolCell :: old(allocated(cell)) ==> cell.value == old(cell.value)
    ensures CallsOf(script) == old(CallsOf(script))
  {
    forall n | 0 <= n < |script| ensures OpOf(script[n].action) == old(OpOf(script[n].action)) {
      if script[n].action.ConfigureAction? {
        var managed := script[n].action.managed;
        forall k | 0 <= k < |managed| ensures SpecValue(managed[k]) == old(SpecValue(managed[k])) {
        }
        assert SpecValues(managed) == old(SpecValues(managed));
      }
    }
  }

  method DoOn(nets: seq<Network>, FALSE: BoolCell, table: MacAddress, call: ActionOn)
    requires Separate(nets) && !FALSE.value
    modifies Owned(nets), table
    ensures Sys(States(nets), table.addresses) ==
            SysStep(Sys(old(States(nets)), old(table.addresses)), Call(call.net, old(OpOf(call.action))))
    ensures forall k :: 0 <= k < |nets| ==> nets[k].Slices() == old(nets[k].Slices())
  {
    if call.net < |nets| {
      ghost var before := States(nets);
      OwnsAll(nets, call.net);
      nets[call.net].Do(call.action, FALSE, table);
      assert forall j :: 0 <= j < |nets| && j != call.net ==> nets[j].State() == before[j];
      assert States(nets) == before[call.net := nets[call.net].State()];
    }
  }

  /** A script of calls does to the objects what `SysRun` does to their values: networks with interfaces
      of their own behave as independent values that share the table, although their interfaces share
      cells.  Every cell that existed before keeps its contents. */
  method RunScript(nets: seq<Network>, FALSE: BoolCell, table: MacAddress, script: seq<ActionOn>)
    requires Separate(nets) && !FALSE.value
    modifies Owned(nets), table
    ensures Sys(States(nets), table.addresses) ==
            SysRun(Sys(old(States(nets)), old(table.addresses)), old(CallsOf(script)))
    ensures forall k :: 0 <= k < |nets| ==> nets[k].Slices() == old(nets[k].Slices())
    ensures forall cell: BoolCell :: old(allocated(cell)) ==> cell.value == old(cell.value)
    ensures forall dns: Resolver :: old(allocated(dns)) ==> dns.Value() == old(dns.Value())
    ensures forall slice: array<Route> :: old(allocated(slice)) ==> slice[..] == old(slice[..])
  {
    ghost var before, calls := Sys(States(nets), table.addresses), CallsOf(script);
    for n := 0 to |script|
      invariant Sys(States(nets), table.addresses) == SysRun(before, calls[..n]) && CallsOf(script) == calls
      invariant forall k :: 0 <= k < |nets| ==> nets[k].Slices() == old(nets[k].Slices())
    {
      assert calls[n] == Call(script[n].net, OpOf(script[n].action));
      DoOn(nets, FALSE, table, script[n]);
      CallsKept(script);
      assert calls[..n + 1][..n] == calls[..n];
    }
    assert calls[..|script|] == calls;
  }

  datatype Request = Request(controlPlane: bool, nodeIndex: int)

  function ClonesOf(vs: seq<Inet>, requests: seq<Request>): seq<Net> {
    seq(|requests|, k requires 0 <= k < |requests| => CloneOf(vs, requests[k]))
  }

  function CloneOf(vs: seq<Inet>, request: Request): Net {
    Net(request.nodeIndex, ClonedAll(vs, request.controlPlane, request.nodeIndex))
  }

  lemma ClonesSnoc(vs: seq<Inet>, requests: seq<Request>, k: nat)
    requires k < |requests|
    ensures ClonesOf(vs, requests[..k + 1]) == ClonesOf(vs, requests[..k]) + [CloneOf(vs, requests[k])]
  {
  }

  method AddClone(template: Network, nets: seq<Network>, request: Request) returns (more: seq<Network>)
    requires Separate(nets)
    ensures |more| == |nets| + 1 && more[..|nets|] == nets
    ensures Separate(more) && fresh(Owned(more) - Owned(nets))
    ensures template.Values() == old(template.Values()) && template.Slices() == old(template.Slices())
    ensures States(more) == old(States(nets)) + [CloneOf(template.Values(), request)]
    ensures forall k :: 0 <= k < |nets| ==> nets[k].Slices() == old(nets[k].Slices())
    ensures more[|nets|].Slices() == template.Slices() && more[|nets|].dns == template.dns
  {
    ghost var before := States(nets);
    var copy := template.Clone(request.controlPlane, request.nodeIndex);
    assert forall k :: 0 <= k < |nets| ==> nets[k].State() == before[k];
    OwnedSnoc(nets, copy);
    SeparateSnoc(nets, copy);
    more := nets + [copy];
    assert States(more) == before + [copy.State()];
  }

  /** Clones have interfaces of their own, which point to the cells of the template. */
  method CloneForEach(template: Network, requests: seq<Request>) returns (nets: seq<Network>)
    ensures |nets| == |requests| && fresh(Owned(nets)) && Separate(nets)
    ensures States(nets) == ClonesOf(template.Values(), requests)
    ensures forall k :: 0 <= k < |nets| ==> nets[k].Slices() == template.Slices() && nets[k].dns == template.dns
  {
    nets := [];
    ghost var vs, slices := template.Values(), template.Slices();
    for k := 0 to |requests|
      invariant |nets| == k && Separate(nets) && fresh(Owned(nets))
      invariant template.Values() == vs && template.Slices() == slices
      invariant States(nets) == ClonesOf(vs, requests[..k])
      invariant forall j :: 0 <= j < k ==> nets[j].Slices() == slices && nets[j].dns == template.dns
    {
      ClonesSnoc(vs, requests, k);
      ghost var before := nets;
      nets := AddClone(template, nets, requests[k]);
      assert forall j :: 0 <= j < k ==> nets[j] == before[j];
    }
    assert requests[..|requests|] == requests;
  }

  /** The sharing is real: writing through one of the pointers would change the template and its clones
      at once. */
  method SharedCellReachesClone(template: Network, k: nat, nodeIndex: int) returns (copy: Network)
    requires k < |template.interfaces| && template.interfaces[k].enabled != null
    modifies template.interfaces[k].enabled
    ensures k < |copy.interfaces| && copy.interfaces[k] != template.interfaces[k]
    ensures template.Values()[k].enabled == copy.Values()[k].enabled != old(template.Values()[k].enabled)
  {
    copy := template.Clone(false, nodeIndex);
    var cell := template.interfaces[k].enabled;
    assert copy.interfaces[k].SharesPointers(template.interfaces[k]);
    cell.value := !cell.value;
  }

  /** Whatever is called on the clones of a template, and although they share its cells: the template
      keeps its value; every cell, DNS object and slice that existed before keeps its contents, so only
      the table changes among old objects; each clone ends as if its own calls had been made on it alone,
      but for MAC addresses, and a clone on which nothing is called keeps its whole value. */
  method Lifecycle(
    template: Network, requests: seq<Request>, FALSE: BoolCell, table: MacAddress, script: seq<ActionOn>)
    returns (nets: seq<Network>)
    requires !FALSE.value
    modifies table
    ensures template.Values() == old(template.Values())
    ensures ResolverValue(template.dns) == old(ResolverValue(template.dns))
    ensures |nets| == |requests|
    ensures Sys(States(nets), table.addresses) ==
            SysRun(Sys(ClonesOf(old(template.Values()), requests), old(table.addresses)), old(CallsOf(script)))
    ensures forall k :: 0 <= k < |nets| ==> nets[k].Slices() == template.Slices() && nets[k].dns == template.dns
    ensures forall k :: 0 <= k < |nets| ==>
              var clone := ClonesOf(old(template.Values()), requests)[k];
              var ops := CallsOn(old(CallsOf(script)), k);
              && AllSameButMac(nets[k].Values(), Alone(clone, map[], ops).0.vs)
              && (ops == [] ==> nets[k].Values() == clone.vs)
    ensures forall cell: BoolCell :: old(allocated(cell)) ==> cell.value == old(cell.value)
    ensures forall dns: Resolver :: old(allocated(dns)) ==> dns.Value() == old(dns.Value())
    ensures forall slice: array<Route> :: old(allocated(slice)) ==> slice[..] == old(slice[..])
  {
    ghost var calls, vs, addresses := CallsOf(script), template.Values(), table.addresses;
    nets := CloneForEach(template, requests);
    assert template.Values() == vs;
    ghost var start := Sys(ClonesOf(vs, requests), addresses);
    CallsKept(script);
    RunScript(nets, FALSE, table, script);
    forall k | 0 <= k < |nets|
      ensures var ops := CallsOn(calls, k);
              && AllSameButMac(nets[k].Values(), Alone(start.nets[k], map[], ops).0.vs)
              && (ops == [] ==> nets[k].Values() == start.nets[k].vs)
    {
      assert States(nets)[k] == nets[k].State();
      OnlyMacAddressesAreShared(start, calls, k, map[]);
      if CallsOn(calls, k) == [] {
        UncalledIsUnchanged(start, calls, k);
      }
    }
  }
}
