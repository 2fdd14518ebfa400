/**
 Sequences of operations of providers/network.go on several networks that share the MAC table, on
 values: what module `Networks` proves the heap objects to do.
 */
module NetworkRuns {
  import opened Wrappers
  import opened Strings
  import opened Decimal
  import opened Inets
  import opened MacTable

  type Table = map<string, string>

  /** The node index of a network and its interfaces. */
  datatype Net = Net(index: int, vs: seq<Inet>)

  datatype Op =
    | Load
    | Configure(managed: seq<Managed>)
    | UpdateTable
    | Attach(at: nat, address: string)
    | AskMac(at: nat, random: Random)
    | Declare(useMacAddress: bool, randoms: seq<Random>)

  /******* MAC addresses *******/

  predicate Generates(v: Inet) { v.nodeIndex >= 0 && v.IsEnabled() && ToLower(v.macAddress) == "generate" }

  /** An interface and the table after `GetMacAddress`. */
  function Asked(v: Inet, table: Table, random: Random): (Inet, Table) {
    if v.nodeIndex < 0 || !v.IsEnabled() then (v, table)
    else if ToLower(v.macAddress) == "generate" then
      var (after, address) := Generated(table, NetName(v.nicName, v.nodeIndex), random);
      (v.(macAddress := address), after)
    else if ToLower(v.macAddress) == "ignore" then (v.(macAddress := ""), table)
    else (v, table)
  }

  /** What asking does: an address of its own stays, "ignore" gives none, and "generate" gives what the table
      holds afterwards under the interface's key, or nothing if it holds nothing. */
  lemma AskedMeaning(v: Inet, table: Table, random: Random)
    requires v.nodeIndex >= 0 && v.enabled != Some(false)
    ensures var (w, after) := Asked(v, table, random);
            var key, generate, ignore := NetName(v.nicName, v.nodeIndex), Says(v.macAddress, "generate"),
                                         Says(v.macAddress, "ignore");
            && w == v.(macAddress := w.macAddress)
            && (!generate && !ignore ==> w.macAddress == v.macAddress)
            && (ignore ==> w.macAddress == "")
            && (generate ==> w.macAddress == if key in after then after[key] else "")
            && (generate ==> (key in after <==> key in table || random.Some?))
            && (!generate ==> after == table)
            && (forall k :: k in table ==> k in after && after[k] == table[k])
            && (forall k :: k in after ==> k in table || k == key)
  {
    MacKeywordIff(v.macAddress);
  }

  lemma MacKeywordIff(address: string)
    ensures ToLower(address) == "generate" <==> Says(address, "generate")
    ensures ToLower(address) == "ignore" <==> Says(address, "ignore")
    ensures !(Says(address, "generate") && Says(address, "ignore"))
  {
    ToLowerIff(address, "generate");
    ToLowerIff(address, "ignore");
    assert "generate"[0] != "ignore"[0];
  }

  function AskedAt(vs: seq<Inet>, table: Table, at: nat, random: Random): (r: (seq<Inet>, Table))
    ensures |r.0| == |vs|
  {
    if at >= |vs| then (vs, table)
    else var (v, after) := Asked(vs[at], table, random); (vs[at := v], after)
  }

  function RandomAt(randoms: seq<Random>, at: nat): Random { if at < |randoms| then randoms[at] else None }

  function AskOps(v: Inet, random: Random): seq<TableOp> {
    if Generates(v) then [Ask(v.nicName, v.nodeIndex, random)] else []
  }

  function AskOpsAt(vs: seq<Inet>, at: nat, random: Random): seq<TableOp> {
    if at < |vs| then AskOps(vs[at], random) else []
  }

  /** One round of `GetCloudInitNetwork`: interfaces, operations on the table, and whether it panics. */
  function Round(
    vs: seq<Inet>, table: Table, useMacAddress: bool, random: Random, at: nat
  ): (r: (seq<Inet>, seq<TableOp>, bool))
    requires at < |vs|
    ensures |r.0| == |vs|
  {
    if !Declares(vs[at]) then (vs, [], false)
    else if useMacAddress then (AskedAt(vs, table, at, random).0, AskOps(vs[at], random), Panics(vs[at]))
    else (vs, [], Panics(vs[at]))
  }

  /** The first `k` rounds of `GetCloudInitNetwork`. */
  function Declaring(
    vs: seq<Inet>, table: Table, useMacAddress: bool, randoms: seq<Random>, k: nat
  ): (r: (seq<Inet>, seq<TableOp>, bool))
    requires k <= |vs|
    ensures |r.0| == |vs|
  {
    if k == 0 then (vs, [], false)
    else
      var (ws, ops, panicked) := Declaring(vs, table, useMacAddress, randoms, k - 1);
      if panicked then (ws, ops, true)
      else
        var (xs, more, panics) := Round(ws, ApplyAll(table, ops), useMacAddress, RandomAt(randoms, k - 1), k - 1);
        (xs, ops + more, panics)
  }

  predicate Explicit(v: Inet) {
    |v.macAddress| > 0 && ToLower(v.macAddress) != "generate" && ToLower(v.macAddress) != "ignore"
  }

  function RecordOp(v: Inet): seq<TableOp> {
    if v.IsEnabled() && Explicit(v) then [SetMac(v.nicName, v.nodeIndex, v.macAddress)] else []
  }

  function RecordOps(vs: seq<Inet>, k: nat): seq<TableOp>
    requires k <= |vs|
  {
    if k == 0 then [] else RecordOps(vs, k - 1) + RecordOp(vs[k - 1])
  }

  function Indexed(vs: seq<Inet>, index: int): seq<Inet> {
    seq(|vs|, i requires 0 <= i < |vs| => vs[i].(nodeIndex := index))
  }

  function AttachOps(vs: seq<Inet>, at: nat, address: string): seq<TableOp> {
    if at < |vs| then [SetMac(vs[at].nicName, vs[at].nodeIndex, address)] else []
  }

  /******* One network *******/

  /** A network after a call, and the operations of the call on the table. */
  function Step(net: Net, table: Table, op: Op): (r: (Net, seq<TableOp>))
    ensures |r.0.vs| == |net.vs| && r.0.index == net.index
  {
    match op
    case Load => (net.(vs := LoadedAll(net.vs)), [])
    case Configure(managed) => (net.(vs := ConfiguredAll(net.vs, managed)), [])
    case UpdateTable => (net.(vs := Indexed(net.vs, net.index)), RecordOps(Indexed(net.vs, net.index), |net.vs|))
    case Attach(at, address) => (net, AttachOps(net.vs, at, address))
    case AskMac(at, random) => (net.(vs := AskedAt(net.vs, table, at, random).0), AskOpsAt(net.vs, at, random))
    case Declare(useMacAddress, randoms) =>
      var (ws, ops, _) := Declaring(net.vs, table, useMacAddress, randoms, |net.vs|);
      (net.(vs := ws), ops)
  }

  /******* Several networks *******/

  datatype Call = Call(net: nat, op: Op)

  datatype Sys = Sys(nets: seq<Net>, table: Table)

  function SysStep(s: Sys, c: Call): (r: Sys)
    ensures |r.nets| == |s.nets|
  {
    if c.net >= |s.nets| then s
    else
      var (net, ops) := Step(s.nets[c.net], s.table, c.op);
      Sys(s.nets[c.net := net], ApplyAll(s.table, ops))
  }

  function SysRun(s: Sys, script: seq<Call>): (r: Sys)
    ensures |r.nets| == |s.nets|
  {
    if script == [] then s else SysStep(SysRun(s, script[..|script| - 1]), script[|script| - 1])
  }

  /******* Networks do not interfere except through MAC addresses *******/

  /** Equal but for MAC addresses. */
  predicate SameButMac(v: Inet, w: Inet) { v.(macAddress := "") == w.(macAddress := "") }

  predicate AllSameButMac(vs: seq<Inet>, ws: seq<Inet>) {
    |vs| == |ws| && forall i :: 0 <= i < |vs| ==> SameButMac(vs[i], ws[i])
  }

  lemma {:induction false} FindEnabledIgnoresMac(vs: seq<Inet>, ws: seq<Inet>, networkName: string)
    requires AllSameButMac(vs, ws)
    ensures FindEnabled(vs, networkName) == FindEnabled(ws, networkName)
  {
    if vs != [] {
      assert SameButMac(vs[0], ws[0]);
      FindEnabledIgnoresMac(vs[1..], ws[1..], networkName);
    }
  }

  lemma ConfiguredByIgnoresMac(vs: seq<Inet>, ws: seq<Inet>, m: Managed)
    requires AllSameButMac(vs, ws)
    ensures AllSameButMac(ConfiguredBy(vs, m), ConfiguredBy(ws, m))
  {
    FindEnabledIgnoresMac(vs, ws, m.networkName);
    var found := FindEnabled(vs, m.networkName);
    if found.Some? {
      assert SameButMac(vs[found.value], ws[found.value]);
      assert SameButMac(ConfiguredInet(vs[found.value], m), ConfiguredInet(ws[found.value], m));
    }
  }

  lemma {:induction false} ConfiguredIgnoresMac(vs: seq<Inet>, ws: seq<Inet>, managed: seq<Managed>)
    requires AllSameButMac(vs, ws)
    ensures AllSameButMac(ConfiguredAll(vs, managed), ConfiguredAll(ws, managed))
  {
    if managed != [] {
      var n := |managed| - 1;
      ConfiguredIgnoresMac(vs, ws, managed[..n]);
      ConfiguredByIgnoresMac(ConfiguredAll(vs, managed[..n]), ConfiguredAll(ws, managed[..n]), managed[n]);
    }
  }

  lemma SameButMacTransitive(us: seq<Inet>, vs: seq<Inet>, ws: seq<Inet>)
    requires AllSameButMac(us, vs) && AllSameButMac(vs, ws)
    ensures AllSameButMac(us, ws)
  {
    forall i | 0 <= i < |us| ensures SameButMac(us[i], ws[i]) {
      assert SameButMac(us[i], vs[i]) && SameButMac(vs[i], ws[i]);
    }
  }

  lemma AskedTouchesMacOnly(vs: seq<Inet>, table: Table, at: nat, random: Random)
    ensures AllSameButMac(vs, AskedAt(vs, table, at, random).0)
  {
  }

  lemma RoundTouchesMacOnly(
    us: seq<Inet>, vs: seq<Inet>, table: Table, useMacAddress: bool, random: Random, at: nat)
    requires at < |vs| && AllSameButMac(us, vs)
    ensures AllSameButMac(us, Round(vs, table, useMacAddress, random, at).0)
  {
    AskedTouchesMacOnly(vs, table, at, random);
    SameButMacTransitive(us, vs, AskedAt(vs, table, at, random).0);
  }

  lemma {:induction false} DeclaringTouchesMacOnly(
    vs: seq<Inet>, table: Table, useMacAddress: bool, randoms: seq<Random>, k: nat)
    requires k <= |vs|
    ensures AllSameButMac(vs, Declaring(vs, table, useMacAddress, randoms, k).0)
  {
    if k > 0 {
      DeclaringTouchesMacOnly(vs, table, useMacAddress, randoms, k - 1);
      var (ws, ops, panicked) := Declaring(vs, table, useMacAddress, randoms, k - 1);
      if !panicked {
        RoundTouchesMacOnly(vs, ws, ApplyAll(table, ops), useMacAddress, RandomAt(randoms, k - 1), k - 1);
      }
    }
  }

  lemma BothTouchMacOnly(vs: seq<Inet>, vs': seq<Inet>, ws: seq<Inet>, ws': seq<Inet>)
    requires AllSameButMac(vs, ws) && AllSameButMac(vs, vs') && AllSameButMac(ws, ws')
    ensures AllSameButMac(vs', ws')
  {
    forall i | 0 <= i < |vs| ensures SameButMac(vs'[i], ws'[i]) {
      assert SameButMac(vs[i], ws[i]) && SameButMac(vs[i], vs'[i]) && SameButMac(ws[i], ws'[i]);
    }
  }

  lemma LoadedInetIgnoresMac(v: Inet, w: Inet)
    requires SameButMac(v, w)
    ensures SameButMac(LoadedInet(v), LoadedInet(w))
  {
    assert v == w.(macAddress := v.macAddress);
    assert LoadedInet(v) == LoadedInet(w).(macAddress := v.macAddress);
  }

  lemma LoadedIgnoresMac(vs: seq<Inet>, ws: seq<Inet>)
    requires AllSameButMac(vs, ws)
    ensures AllSameButMac(LoadedAll(vs), LoadedAll(ws))
  {
    forall i | 0 <= i < |vs| ensures SameButMac(LoadedAll(vs)[i], LoadedAll(ws)[i]) {
      LoadedInetIgnoresMac(vs[i], ws[i]);
    }
  }

  lemma IndexedIgnoresMac(vs: seq<Inet>, ws: seq<Inet>, index: int)
    requires AllSameButMac(vs, ws)
    ensures AllSameButMac(Indexed(vs, index), Indexed(ws, index))
  {
    forall i | 0 <= i < |vs| ensures SameButMac(Indexed(vs, index)[i], Indexed(ws, index)[i]) {
      assert SameButMac(vs[i], ws[i]);
    }
  }

  lemma StepIgnoresMac(net: Net, table: Table, other: Net, otherTable: Table, op: Op)
    requires net.index == other.index && AllSameButMac(net.vs, other.vs)
    ensures AllSameButMac(Step(net, table, op).0.vs, Step(other, otherTable, op).0.vs)
  {
    var vs, ws := net.vs, other.vs;
    match op
    case Load => LoadedIgnoresMac(vs, ws);
    case Configure(managed) => ConfiguredIgnoresMac(vs, ws, managed);
    case UpdateTable => IndexedIgnoresMac(vs, ws, net.index);
    case Attach(_, _) =>
    case AskMac(at, random) =>
      AskedTouchesMacOnly(vs, table, at, random);
      AskedTouchesMacOnly(ws, otherTable, at, random);
      BothTouchMacOnly(vs, AskedAt(vs, table, at, random).0, ws, AskedAt(ws, otherTable, at, random).0);
    case Declare(useMacAddress, randoms) =>
      DeclaringTouchesMacOnly(vs, table, useMacAddress, randoms, |vs|);
      DeclaringTouchesMacOnly(ws, otherTable, useMacAddress, randoms, |ws|);
      BothTouchMacOnly(vs, Declaring(vs, table, useMacAddress, randoms, |vs|).0,
                       ws, Declaring(ws, otherTable, useMacAddress, randoms, |ws|).0);
  }

  /** The calls of a script that are made on one network. */
  function CallsOn(script: seq<Call>, k: nat): seq<Op> {
    if script == [] then []
    else
      var last := script[|script| - 1];
      CallsOn(script[..|script| - 1], k) + if last.net == k then [last.op] else []
  }

  /** One network alone, with a table of its own. */
  function Alone(net: Net, table: Table, ops: seq<Op>): (Net, Table) {
    if ops == [] then (net, table)
    else
      var (m, t) := Alone(net, table, ops[..|ops| - 1]);
      var (after, on) := Step(m, t, ops[|ops| - 1]);
      (after, ApplyAll(t, on))
  }

  lemma AloneSnoc(net: Net, table: Table, ops: seq<Op>, op: Op)
    ensures var (m, t) := Alone(net, table, ops); Alone(net, table, ops + [op]).0 == Step(m, t, op).0
  {
    assert (ops + [op])[..|ops + [op]| - 1] == ops;
  }

  /** In any run over networks that share the table, each network ends as if its own calls had been
      made on it alone, with any table whatever, except for MAC addresses. */
  lemma {:induction false} OnlyMacAddressesAreShared(s: Sys, script: seq<Call>, k: nat, table: Table)
    requires k < |s.nets|
    ensures var alone := Alone(s.nets[k], table, CallsOn(script, k)).0;
            SysRun(s, script).nets[k].index == alone.index && AllSameButMac(SysRun(s, script).nets[k].vs, alone.vs)
  {
    if script != [] {
      var front, last := script[..|script| - 1], script[|script| - 1];
      OnlyMacAddressesAreShared(s, front, k, table);
      if last.net == k {
        var (m, t) := Alone(s.nets[k], table, CallsOn(front, k));
        AloneSnoc(s.nets[k], table, CallsOn(front, k), last.op);
        StepIgnoresMac(SysRun(s, front).nets[k], SysRun(s, front).table, m, t, last.op);
      } else {
        assert CallsOn(script, k) == CallsOn(front, k);
      }
    }
  }

  /** A network on which no call is made keeps its value, MAC addresses included. */
  lemma {:induction false} UncalledIsUnchanged(s: Sys, script: seq<Call>, k: nat)
    requires k < |s.nets| && CallsOn(script, k) == []
    ensures SysRun(s, script).nets[k] == s.nets[k]
  {
    if script != [] {
      UncalledIsUnchanged(s, script[..|script| - 1], k);
    }
  }

  /******* The shared table *******/

  /** The operations of a script on the table. */
  function SysOps(s: Sys, script: seq<Call>): seq<TableOp> {
    if script == [] then []
    else
      var before, c := SysRun(s, script[..|script| - 1]), script[|script| - 1];
      SysOps(s, script[..|script| - 1]) +
      if c.net < |before.nets| then Step(before.nets[c.net], before.table, c.op).1 else []
  }

  lemma OneOp(table: Table, op: TableOp)
    ensures ApplyAll(table, [op]) == Apply(table, op)
  {
    assert ApplyAll(table, [op][..0]) == table;
  }

  lemma AskOpsMeaning(v: Inet, table: Table, random: Random)
    ensures ApplyAll(table, AskOps(v, random)) == Asked(v, table, random).1
  {
    if Generates(v) {
      OneOp(table, Ask(v.nicName, v.nodeIndex, random));
    }
  }

  lemma RecordOpMeaning(table: Table, v: Inet)
    ensures ApplyAll(table, RecordOp(v)) ==
            if v.IsEnabled() && Explicit(v) then table[NetName(v.nicName, v.nodeIndex) := v.macAddress] else table
  {
    if v.IsEnabled() && Explicit(v) {
      OneOp(table, SetMac(v.nicName, v.nodeIndex, v.macAddress));
    }
  }

  lemma {:induction false} SysOpsMeaning(s: Sys, script: seq<Call>)
    ensures ApplyAll(s.table, SysOps(s, script)) == SysRun(s, script).table
  {
    if script != [] {
      var before, c := SysRun(s, script[..|script| - 1]), script[|script| - 1];
      SysOpsMeaning(s, script[..|script| - 1]);
      ApplyAllConcat(s.table, SysOps(s, script[..|script| - 1]),
                     if c.net < |before.nets| then Step(before.nets[c.net], before.table, c.op).1 else []);
    }
  }

  /******* The MAC addresses of a declaration *******/

  /** The MAC address an interface declares, by what it is told and what the table holds at the end. */
  ghost predicate MacDeclared(v: Inet, w: Inet, final: Table, mayFail: bool) {
    var key := NetName(v.nicName, v.nodeIndex);
    if Says(v.macAddress, "ignore") then w.macAddress == ""
    else if !Says(v.macAddress, "generate") then w.macAddress == v.macAddress
    else (key in final && w.macAddress == final[key]) || (mayFail && w.macAddress == "")
  }

  predicate Extends(table: Table, later: Table) { forall k :: k in table ==> k in later && later[k] == table[k] }

  lemma RoundTable(vs: seq<Inet>, table: Table, random: Random, at: nat)
    requires at < |vs|
    ensures var round := Round(vs, table, true, random, at);
            && ApplyAll(table, round.1) == (if Declares(vs[at]) then Asked(vs[at], table, random).1 else table)
            && Extends(table, ApplyAll(table, round.1))
  {
    AskOpsMeaning(vs[at], table, random);
  }

  lemma RoundMac(vs: seq<Inet>, table: Table, random: Random, at: nat)
    requires at < |vs| && Declares(vs[at]) && vs[at].nodeIndex >= 0
    ensures var round := Round(vs, table, true, random, at);
            MacDeclared(vs[at], round.0[at], ApplyAll(table, round.1), random.None?)
  {
    AskedMeaning(vs[at], table, random);
    MacKeywordIff(vs[at].macAddress);
    RoundTable(vs, table, random, at);
  }

  /** After `k` rounds: the interfaces declared so far have the right addresses, the others are as they were. */
  ghost predicate MacsRight(vs: seq<Inet>, ws: seq<Inet>, table: Table, randoms: seq<Random>, k: nat) {
    && |ws| == |vs|
    && (forall i :: k <= i < |vs| ==> ws[i] == vs[i])
    && forall i :: 0 <= i < k && i < |vs| && Declares(vs[i]) && vs[i].nodeIndex >= 0 ==>
         MacDeclared(vs[i], ws[i], table, RandomAt(randoms, i).None?)
  }

  lemma LaterTable(v: Inet, w: Inet, table: Table, later: Table, mayFail: bool)
    requires MacDeclared(v, w, table, mayFail) && Extends(table, later)
    ensures MacDeclared(v, w, later, mayFail)
  {
  }

  lemma RoundKeepsMacs(vs: seq<Inet>, ws: seq<Inet>, table: Table, randoms: seq<Random>, k: nat)
    requires k < |vs| && MacsRight(vs, ws, table, randoms, k)
    ensures var round := Round(ws, table, true, RandomAt(randoms, k), k);
            MacsRight(vs, round.0, ApplyAll(table, round.1), randoms, k + 1)
  {
    var round := Round(ws, table, true, RandomAt(randoms, k), k);
    var later := ApplyAll(table, round.1);
    RoundTable(ws, table, RandomAt(randoms, k), k);
    assert forall i :: 0 <= i < |vs| && i != k ==> round.0[i] == ws[i];
    forall i | 0 <= i <= k && Declares(vs[i]) && vs[i].nodeIndex >= 0
      ensures MacDeclared(vs[i], round.0[i], later, RandomAt(randoms, i).None?)
    {
      if i == k {
        RoundMac(ws, table, RandomAt(randoms, k), k);
      } else {
        LaterTable(vs[i], ws[i], table, later, RandomAt(randoms, i).None?);
      }
    }
  }

  /** One more round. */
  lemma DeclaringStep(
    vs: seq<Inet>, table: Table, randoms: seq<Random>, k: nat, ws: seq<Inet>, ops: seq<TableOp>, xs: seq<Inet>,
    all: seq<TableOp>, panics: bool)
    requires k < |vs| && Declaring(vs, table, true, randoms, k) == (ws, ops, false)
    requires Declaring(vs, table, true, randoms, k + 1) == (xs, all, panics)
    ensures |ws| == |vs|
    ensures xs == Round(ws, ApplyAll(table, ops), true, RandomAt(randoms, k), k).0
    ensures ApplyAll(table, all) ==
            ApplyAll(ApplyAll(table, ops), Round(ws, ApplyAll(table, ops), true, RandomAt(randoms, k), k).1)
  {
    ApplyAllConcat(table, ops, Round(ws, ApplyAll(table, ops), true, RandomAt(randoms, k), k).1);
  }

  /** The first `k` rounds panic or leave the right addresses. */
  ghost predicate MacsAfter(vs: seq<Inet>, table: Table, randoms: seq<Random>, k: nat)
    requires k <= |vs|
  {
    var (ws, ops, panicked) := Declaring(vs, table, true, randoms, k);
    panicked || MacsRight(vs, ws, ApplyAll(table, ops), randoms, k)
  }

  lemma MacsAtFirst(vs: seq<Inet>, table: Table, randoms: seq<Random>)
    ensures MacsAfter(vs, table, randoms, 0)
  {
  }

  lemma RoundGives(
    vs: seq<Inet>, ws: seq<Inet>, table: Table, randoms: seq<Random>, k: nat, xs: seq<Inet>, later: Table)
    requires k < |vs| && MacsRight(vs, ws, table, randoms, k)
    requires var round := Round(ws, table, true, RandomAt(randoms, k), k);
             xs == round.0 && later == ApplyAll(table, round.1)
    ensures MacsRight(vs, xs, later, randoms, k + 1)
  {
    RoundKeepsMacs(vs, ws, table, randoms, k);
  }

  lemma MacsNext(
    vs: seq<Inet>, table: Table, randoms: seq<Random>, k: nat, ws: seq<Inet>, ops: seq<TableOp>, xs: seq<Inet>,
    all: seq<TableOp>, panics: bool)
    requires k < |vs| && Declaring(vs, table, true, randoms, k) == (ws, ops, false)
    requires Declaring(vs, table, true, randoms, k + 1) == (xs, all, panics)
    requires MacsRight(vs, ws, ApplyAll(table, ops), randoms, k)
    ensures MacsRight(vs, xs, ApplyAll(table, all), randoms, k + 1)
  {
    DeclaringStep(vs, table, randoms, k, ws, ops, xs, all, panics);
    RoundGives(vs, ws, ApplyAll(table, ops), randoms, k, xs, ApplyAll(table, all));
  }

  lemma PanicStaysOnce(
    vs: seq<Inet>, table: Table, useMacAddress: bool, randoms: seq<Random>, k: nat,
    stopped: (seq<Inet>, seq<TableOp>, bool))
    requires k < |vs| && Declaring(vs, table, useMacAddress, randoms, k) == stopped && stopped.2
    ensures Declaring(vs, table, useMacAddress, randoms, k + 1) == stopped
  {
  }

  lemma OneMoreRound(vs: seq<Inet>, table: Table, randoms: seq<Random>, k: nat)
    requires k < |vs| && MacsAfter(vs, table, randoms, k)
    ensures MacsAfter(vs, table, randoms, k + 1)
  {
    var (ws, ops, panicked) := Declaring(vs, table, true, randoms, k);
    if panicked {
      PanicStaysOnce(vs, table, true, randoms, k, Declaring(vs, table, true, randoms, k));
    } else {
      var (xs, all, panics) := Declaring(vs, table, true, randoms, k + 1);
      MacsNext(vs, table, randoms, k, ws, ops, xs, all, panics);
    }
  }

  /** Every declared interface gets the address it is told, none for "ignore", and for "generate" what the table
      holds for its NIC and index when the declaration is made, unless the random source failed it. */
  lemma {:induction false} DeclaredMacs(vs: seq<Inet>, table: Table, randoms: seq<Random>, k: nat)
    requires k <= |vs|
    ensures MacsAfter(vs, table, randoms, k)
  {
    if k == 0 {
      MacsAtFirst(vs, table, randoms);
    } else {
      DeclaredMacs(vs, table, randoms, k - 1);
      OneMoreRound(vs, table, randoms, k - 1);
    }
  }

  /** A text that is not empty. */
  function Given(s: string): Option<string> { if s == "" then None else Some(s) }

  /** So the adapter declared for a NIC prefix has the address of its last bearer if that has one of its own,
      none for "ignore", and for "generate" the one the table then holds for the bearer's NIC and index. */
  lemma DeclarationMac(vs: seq<Inet>, table: Table, randoms: seq<Random>, dns: Option<Dns>, name: string, i: nat)
    requires i < |vs| && vs[i].nodeIndex >= 0
    requires var (ws, _, panicked) := Declaring(vs, table, true, randoms, |vs|);
             !panicked && NoPanic(ws) && LastBearer(ws, name, i)
    ensures var (ws, ops, _) := Declaring(vs, table, true, randoms, |vs|);
            var declared, final, key := Declared(ws, true, dns), ApplyAll(table, ops),
                                        NetName(vs[i].nicName, vs[i].nodeIndex);
            && name in declared
            && (Says(vs[i].macAddress, "ignore") ==> declared[name].mac == None)
            && (!Says(vs[i].macAddress, "ignore") && !Says(vs[i].macAddress, "generate") ==>
                  declared[name].mac == Given(vs[i].macAddress))
            && (Says(vs[i].macAddress, "generate") && RandomAt(randoms, i).Some? ==>
                  key in final && declared[name].mac == Given(final[key]))
  {
    var (ws, ops, _) := Declaring(vs, table, true, randoms, |vs|);
    DeclaredMacs(vs, table, randoms, |vs|);
    DeclaringTouchesMacOnly(vs, table, true, randoms, |vs|);
    DeclarationMeaning(ws, true, dns, name);
    BearsNicIff(ws[i], name);
    MacOfBearer(vs[i], ws[i], ApplyAll(table, ops), RandomAt(randoms, i).None?);
    assert MacDeclared(vs[i], ws[i], ApplyAll(table, ops), RandomAt(randoms, i).None?);
  }

  lemma MacOfBearer(v: Inet, w: Inet, final: Table, mayFail: bool)
    requires SameButMac(v, w)
    ensures v.nodeIndex == w.nodeIndex && v.enabled == w.enabled && v.nicName == w.nicName
    ensures Declares(v) <==> Declares(w)
    ensures !(Says(v.macAddress, "ignore") && Says(v.macAddress, "generate"))
  {
    MacKeywordIff(v.macAddress);
    assert v == w.(macAddress := v.macAddress);
  }

  /** Without MAC addresses nothing is asked. */
  lemma {:induction false} NothingAsked(vs: seq<Inet>, table: Table, randoms: seq<Random>, k: nat)
    requires k <= |vs|
    ensures Declaring(vs, table, false, randoms, k).0 == vs && Declaring(vs, table, false, randoms, k).1 == []
  {
    if k > 0 {
      NothingAsked(vs, table, randoms, k - 1);
    }
  }

  /******* The addresses the table is told *******/

  /** An enabled interface with an address of its own. */
  predicate TellsMac(v: Inet) {
    && v.enabled != Some(false) && v.macAddress != ""
    && !Says(v.macAddress, "generate") && !Says(v.macAddress, "ignore")
  }

  lemma TellsMacIff(v: Inet)
    ensures TellsMac(v) <==> v.IsEnabled() && Explicit(v)
  {
    MacKeywordIff(v.macAddress);
  }

  /** Among the first `k` interfaces, the last that tells an address for its NIC name. */
  predicate LastTeller(vs: seq<Inet>, k: nat, i: nat) {
    && i < k <= |vs| && TellsMac(vs[i])
    && forall j :: i < j < k && TellsMac(vs[j]) ==> vs[j].nicName != vs[i].nicName
  }

  lemma LastTellerBefore(vs: seq<Inet>, k: nat, i: nat)
    requires LastTeller(vs, k + 1, i) && i < k
    ensures LastTeller(vs, k, i) && (TellsMac(vs[k]) ==> vs[k].nicName != vs[i].nicName)
  {
  }

  /** The operation of the last teller is not touched by those of later interfaces. */
  lemma SetsLastStill(ops: seq<TableOp>, p: nat, v: Inet, nic: string, index: int, address: string)
    requires SetsLast(ops, p, nic, index, address) && (TellsMac(v) ==> v.nicName != nic)
    ensures SetsLast(ops + RecordOp(v), p, nic, index, address)
  {
    TellsMacIff(v);
  }

  lemma SetsLastNow(ops: seq<TableOp>, v: Inet)
    requires TellsMac(v)
    ensures SetsLast(ops + RecordOp(v), |ops|, v.nicName, v.nodeIndex, v.macAddress)
  {
    TellsMacIff(v);
  }

  lemma {:induction false} TellerSetsLast(vs: seq<Inet>, k: nat, i: nat) returns (p: nat)
    requires LastTeller(vs, k, i)
    ensures SetsLast(RecordOps(vs, k), p, vs[i].nicName, vs[i].nodeIndex, vs[i].macAddress)
  {
    if i == k - 1 {
      p := |RecordOps(vs, k - 1)|;
      SetsLastNow(RecordOps(vs, k - 1), vs[i]);
    } else {
      LastTellerBefore(vs, k - 1, i);
      p := TellerSetsLast(vs, k - 1, i);
      SetsLastStill(RecordOps(vs, k - 1), p, vs[k - 1], vs[i].nicName, vs[i].nodeIndex, vs[i].macAddress);
    }
  }

  lemma {:induction false} RecordOpsIndex(vs: seq<Inet>, index: int, k: nat)
    requires k <= |vs| && forall j :: 0 <= j < |vs| ==> vs[j].nodeIndex == index
    ensures forall q :: 0 <= q < |RecordOps(vs, k)| ==> RecordOps(vs, k)[q].index == index
  {
    if k > 0 {
      RecordOpsIndex(vs, index, k - 1);
    }
  }

  /** `UpdateMacAddressTable` gives every interface the index of its network, and the table the address of the
      last enabled interface that has one of its own, for each NIC name. */
  lemma UpdatedTable(net: Net, table: Table, i: nat)
    requires i < |net.vs|
    ensures var (after, ops) := Step(net, table, UpdateTable);
            && after.vs[i] == net.vs[i].(nodeIndex := net.index)
            && (LastTeller(net.vs, |net.vs|, i) ==>
                  Holds(ApplyAll(table, ops), NetName(net.vs[i].nicName, net.index), net.vs[i].macAddress))
  {
    var vs := Indexed(net.vs, net.index);
    assert forall j :: 0 <= j < |vs| ==> vs[j] == net.vs[j].(nodeIndex := net.index);
    if LastTeller(net.vs, |net.vs|, i) {
      assert LastTeller(vs, |vs|, i);
      var p := TellerSetsLast(vs, |vs|, i);
      RecordOpsIndex(vs, net.index, |vs|);
      SetLastHolds(table, RecordOps(vs, |vs|), p, vs[i].nicName, net.index, vs[i].macAddress);
    }
  }

  /** `AttachMacAddress` sets the address of the interface's own NIC and index. */
  lemma AttachedMac(net: Net, table: Table, at: nat, address: string)
    requires at < |net.vs|
    ensures var (after, ops) := Step(net, table, Attach(at, address));
            after == net && Holds(ApplyAll(table, ops), NetName(net.vs[at].nicName, net.vs[at].nodeIndex), address)
  {
    OneOp(table, SetMac(net.vs[at].nicName, net.vs[at].nodeIndex, address));
  }

  /** A clone keeps everything but its address and index, and has a key of its own in the table. */
  lemma CloneHasOwnKey(v: Inet, controlPlane: bool, i: int, j: int)
    requires 0 <= i && 0 <= j && i != j
    ensures var a, b := ClonedInet(v, controlPlane, i), ClonedInet(v, controlPlane, j);
            && a == v.(ipAddress := a.ipAddress, nodeIndex := i)
            && NetName(a.nicName, a.nodeIndex) == v.nicName + "-" + FormatInt(i)
            && NetName(a.nicName, a.nodeIndex) != NetName(b.nicName, b.nodeIndex)
  {
    SameKeyIff(v.nicName, i, v.nicName, j);
  }

  /******* Node indices stay non-negative *******/

  predicate Indices(net: Net) { net.index >= 0 && forall i :: 0 <= i < |net.vs| ==> net.vs[i].nodeIndex >= 0 }

  lemma {:induction false} ConfiguredKeepsIndex(vs: seq<Inet>, managed: seq<Managed>)
    ensures forall i :: 0 <= i < |vs| ==> ConfiguredAll(vs, managed)[i].nodeIndex == vs[i].nodeIndex
  {
    if managed != [] {
      ConfiguredKeepsIndex(vs, managed[..|managed| - 1]);
    }
  }

  lemma RoundOpsNonNegative(vs: seq<Inet>, table: Table, useMacAddress: bool, random: Random, at: nat)
    requires at < |vs|
    ensures NonNegative(Round(vs, table, useMacAddress, random, at).1)
  {
  }

  lemma NonNegativeConcat(a: seq<TableOp>, b: seq<TableOp>)
    requires NonNegative(a) && NonNegative(b)
    ensures NonNegative(a + b)
  {
  }

  lemma {:induction false} DeclaringOpsNonNegative(
    vs: seq<Inet>, table: Table, useMacAddress: bool, randoms: seq<Random>, k: nat)
    requires k <= |vs|
    ensures NonNegative(Declaring(vs, table, useMacAddress, randoms, k).1)
  {
    if k > 0 {
      var (ws, ops, panicked) := Declaring(vs, table, useMacAddress, randoms, k - 1);
      DeclaringOpsNonNegative(vs, table, useMacAddress, randoms, k - 1);
      if !panicked {
        var round := Round(ws, ApplyAll(table, ops), useMacAddress, RandomAt(randoms, k - 1), k - 1);
        RoundOpsNonNegative(ws, ApplyAll(table, ops), useMacAddress, RandomAt(randoms, k - 1), k - 1);
        NonNegativeConcat(ops, round.1);
        assert Declaring(vs, table, useMacAddress, randoms, k).1 == ops + round.1;
      }
    }
  }

  lemma {:induction false} RecordOpsNonNegative(vs: seq<Inet>, k: nat)
    requires k <= |vs| && forall i :: 0 <= i < |vs| ==> vs[i].nodeIndex >= 0
    ensures NonNegative(RecordOps(vs, k))
  {
    if k > 0 {
      RecordOpsNonNegative(vs, k - 1);
    }
  }

  lemma StepKeepsIndices(net: Net, table: Table, op: Op)
    requires Indices(net)
    ensures Indices(Step(net, table, op).0) && NonNegative(Step(net, table, op).1)
  {
    match op
    case Configure(managed) => ConfiguredKeepsIndex(net.vs, managed);
    case UpdateTable => RecordOpsNonNegative(Indexed(net.vs, net.index), |net.vs|);
    case AskMac(at, random) => AskedTouchesMacOnly(net.vs, table, at, random);
    case Declare(useMacAddress, randoms) =>
      var ws := Declaring(net.vs, table, useMacAddress, randoms, |net.vs|).0;
      DeclaringTouchesMacOnly(net.vs, table, useMacAddress, randoms, |net.vs|);
      assert forall i :: 0 <= i < |ws| ==> SameButMac(net.vs[i], ws[i]);
      DeclaringOpsNonNegative(net.vs, table, useMacAddress, randoms, |net.vs|);
    case _ =>
  }

  lemma {:induction false} RunKeepsIndices(s: Sys, script: seq<Call>)
    requires forall k :: 0 <= k < |s.nets| ==> Indices(s.nets[k])
    ensures forall k :: 0 <= k < |s.nets| ==> Indices(SysRun(s, script).nets[k])
    ensures NonNegative(SysOps(s, script))
  {
    if script != [] {
      var before, c := SysRun(s, script[..|script| - 1]), script[|script| - 1];
      RunKeepsIndices(s, script[..|script| - 1]);
      if c.net < |before.nets| {
        StepKeepsIndices(before.nets[c.net], before.table, c.op);
      }
    }
  }

  /** Two "generate" interfaces with one NIC name and one non-negative node index, on whatever
      networks, get the same MAC address when any calls on any networks come in between, unless these
      set an address for exactly that pair (then the second gets the one set last) or the first
      request failed for lack of randomness. */
  lemma SameInterfaceSameMac(v: Inet, first: Random, s: Sys, script: seq<Call>, w: Inet, second: Random)
    requires Generates(v) && Generates(w) && v.nicName == w.nicName && v.nodeIndex == w.nodeIndex
    requires NetName(v.nicName, v.nodeIndex) in s.table || first.Some?
    requires forall k :: 0 <= k < |s.nets| ==> Indices(s.nets[k])
    ensures var (v', table) := Asked(v, s.table, first);
            var (w', _) := Asked(w, SysRun(s.(table := table), script).table, second);
            w'.macAddress ==
            match LastSet(SysOps(s.(table := table), script), v.nicName, v.nodeIndex)
            case Some(address) => address
            case None => v'.macAddress
  {
    var after := s.(table := Asked(v, s.table, first).1);
    RunKeepsIndices(after, script);
    SysOpsMeaning(after, script);
    SamePairSameMac(s.table, v.nicName, v.nodeIndex, first, SysOps(after, script), second);
  }
}
