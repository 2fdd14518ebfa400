/**
 `checkRessourceLimits` of server/controller.go and what it guarantees over runs.

 Integers are unbounded here; the source's `int` and `int64` sums are taken not to overflow.
 The memory sum mixes units as the source does: the machine's megabytes are added to capacities
 in bytes.
 */
module Admission {
  import opened Wrappers

  const NODES := "nodes"
  const CORES := "cpu"
  const MEMORY := "memory"

  datatype Capacity = Capacity(cores: nat, memory: nat)
  datatype Machine = Machine(vcpu: nat, memory: nat)
  datatype LimitStatus = Nice | MaxCpuReached | MaxMemoryReached | MaxNodesReached

  function GetMaxValue(limits: map<string, int>, key: string, default: int): int {
    if key in limits then limits[key] else default
  }

  function MaxNodes(limits: map<string, int>): int { GetMaxValue(limits, NODES, 32) }
  function MaxCores(limits: map<string, int>): int { GetMaxValue(limits, CORES, 128) }
  function MaxMemory(limits: map<string, int>): int { GetMaxValue(limits, MEMORY, 1024 * 1024 * 1024) }

  function CoresOf(node: Capacity): nat { node.cores }

  function MemoryOf(node: Capacity): nat { node.memory }

  function Sum(nodes: seq<Capacity>, part: Capacity -> nat): nat {
    if nodes == [] then 0 else Sum(nodes[..|nodes| - 1], part) + part(nodes[|nodes| - 1])
  }

  function Cores(nodes: seq<Capacity>): nat { Sum(nodes, CoresOf) }

  function Memory(nodes: seq<Capacity>): nat { Sum(nodes, MemoryOf) }

  /** The machine fits under all three limits as the source computes them. */
  predicate Fits(limits: map<string, int>, nodes: seq<Capacity>, m: Machine) {
    && |nodes| + 1 <= MaxNodes(limits)
    && Cores(nodes) + m.vcpu <= MaxCores(limits)
    && Memory(nodes) + m.memory <= MaxMemory(limits)
  }

  /** A resource that is not limited has the default, and no limit bears on another resource. */
  lemma FitsIff(limits: map<string, int>, nodes: seq<Capacity>, m: Machine)
    ensures Fits(limits, nodes, m) <==>
            && (if "nodes" in limits then |nodes| < limits["nodes"] else |nodes| < 32)
            && (if "cpu" in limits then Cores(nodes) + m.vcpu <= limits["cpu"] else Cores(nodes) + m.vcpu <= 128)
            && (if "memory" in limits then Memory(nodes) + m.memory <= limits["memory"]
                else Memory(nodes) + m.memory <= 1073741824)
  {
    assert |"nodes"| == 5 && |"cpu"| == 3 && |"memory"| == 6;
  }

  /** A failed listing admits; otherwise nodes are checked before cores before memory. */
  method CheckResourceLimits(limits: map<string, int>, listing: Option<seq<Capacity>>, m: Machine)
    returns (status: LimitStatus)
    ensures status.Nice? <==> listing.None? || Fits(limits, listing.value, m)
    ensures status.MaxNodesReached? <==> listing.Some? && |listing.value| + 1 > MaxNodes(limits)
    ensures status.MaxCpuReached? <==>
            && listing.Some? && |listing.value| + 1 <= MaxNodes(limits)
            && Cores(listing.value) + m.vcpu > MaxCores(limits)
  {
    status := Nice;
    if listing.Some? {
      var nodes := listing.value;
      if MaxNodes(limits) < |nodes| + 1 {
        status := MaxNodesReached;
      } else {
        var allocatedMemory, allocatedCores := 0, 0;
        for i := 0 to |nodes|
          invariant allocatedMemory == Memory(nodes[..i]) && allocatedCores == Cores(nodes[..i])
        {
          assert nodes[..i + 1][..i] == nodes[..i];
          allocatedMemory := allocatedMemory + nodes[i].memory;
          allocatedCores := allocatedCores + nodes[i].cores;
        }
        assert nodes[..|nodes|] == nodes;
        if MaxCores(limits) < m.vcpu + allocatedCores {
          status := MaxCpuReached;
        } else if MaxMemory(limits) < m.memory + allocatedMemory {
          status := MaxMemoryReached;
        }
      }
    }
  }

  /******* Admissions over a run *******/

  /** `listed` is what the lister shows; `waiting` was admitted since and is not listed yet. */
  datatype Cluster = Cluster(listed: seq<Capacity>, waiting: seq<Capacity>)

  /** `memory` is what the admitted node will report.  A waiting node is listed by `ListOne`, on its own,
      or never, after `Fail`.  `Join` is a node that was not admitted here. */
  datatype Event =
    | Admit(machine: Machine, memory: nat)
    | ListOne(i: nat)
    | Fail(i: nat)
    | Leave(i: nat)
    | Join(node: Capacity)

  /** At most `window` admitted nodes wait at a time. */
  predicate Enabled(limits: map<string, int>, window: nat, c: Cluster, e: Event) {
    match e
    case Admit(m, _) => |c.waiting| < window && Fits(limits, c.listed, m)
    case ListOne(i) => i < |c.waiting|
    case Fail(i) => i < |c.waiting|
    case Leave(i) => i < |c.listed|
    case Join(_) => true
  }

  function Without<T>(xs: seq<T>, i: nat): seq<T>
    requires i < |xs|
  {
    xs[..i] + xs[i + 1..]
  }

  function Next(c: Cluster, e: Event): Cluster
    requires (e.ListOne? || e.Fail? ==> e.i < |c.waiting|) && (e.Leave? ==> e.i < |c.listed|)
  {
    match e
    case Admit(m, memory) => c.(waiting := c.waiting + [Capacity(m.vcpu, memory)])
    case ListOne(i) => Cluster(c.listed + [c.waiting[i]], Without(c.waiting, i))
    case Fail(i) => c.(waiting := Without(c.waiting, i))
    case Leave(i) => c.(listed := Without(c.listed, i))
    case Join(node) => c.(listed := c.listed + [node])
  }

  predicate IsRun(limits: map<string, int>, window: nat, c: Cluster, es: seq<Event>)
    decreases |es|
  {
    es == [] || (Enabled(limits, window, c, es[0]) && IsRun(limits, window, Next(c, es[0]), es[1..]))
  }

  function After(limits: map<string, int>, window: nat, c: Cluster, es: seq<Event>): Cluster
    requires IsRun(limits, window, c, es)
    decreases |es|
  {
    if es == [] then c else After(limits, window, Next(c, es[0]), es[1..])
  }

  lemma {:induction false} SumConcat(a: seq<Capacity>, b: seq<Capacity>, part: Capacity -> nat)
    ensures Sum(a + b, part) == Sum(a, part) + Sum(b, part)
  {
    if b == [] {
      assert a + b == a;
    } else {
      SumConcat(a, b[..|b| - 1], part);
      assert (a + b)[..|a + b| - 1] == a + b[..|b| - 1];
    }
  }

  lemma SumWith(nodes: seq<Capacity>, node: Capacity, part: Capacity -> nat)
    ensures Sum(nodes + [node], part) == Sum(nodes, part) + part(node)
  {
    assert (nodes + [node])[..|nodes|] == nodes;
  }

  lemma SumAround(front: seq<Capacity>, node: Capacity, back: seq<Capacity>, part: Capacity -> nat)
    ensures Sum(front + back, part) + part(node) == Sum(front + [node] + back, part)
  {
    SumConcat(front, back, part);
    SumConcat(front + [node], back, part);
    SumWith(front, node, part);
  }

  lemma Recomposed<T>(xs: seq<T>, i: nat)
    requires i < |xs|
    ensures xs == xs[..i] + [xs[i]] + xs[i + 1..]
  {
  }

  lemma SumWithout(nodes: seq<Capacity>, i: nat, part: Capacity -> nat)
    requires i < |nodes|
    ensures Sum(Without(nodes, i), part) + part(nodes[i]) == Sum(nodes, part)
  {
    Recomposed(nodes, i);
    SumAround(nodes[..i], nodes[i], nodes[i + 1..], part);
  }

  predicate PartsUpTo(nodes: seq<Capacity>, part: Capacity -> nat, largest: nat) {
    forall i :: 0 <= i < |nodes| ==> part(nodes[i]) <= largest
  }

  lemma {:induction false} SumBound(nodes: seq<Capacity>, part: Capacity -> nat, largest: nat)
    requires PartsUpTo(nodes, part, largest)
    ensures Sum(nodes, part) <= |nodes| * largest
  {
    if nodes != [] {
      SumBound(nodes[..|nodes| - 1], part, largest);
    }
  }

  /******* Against one listing *******/

  predicate NothingListed(es: seq<Event>) { forall j :: 0 <= j < |es| ==> !es[j].ListOne? && !es[j].Join? }

  predicate NothingAdmitted(es: seq<Event>) { forall j :: 0 <= j < |es| ==> !es[j].Admit? && !es[j].Join? }

  /** While nothing is listed, the listing every waiting node was checked against is still an upper
      bound of the listing. */
  ghost predicate WindowOk(limits: map<string, int>, c: Cluster) {
    c.waiting != [] ==>
      && |c.listed| + 1 <= MaxNodes(limits)
      && forall i :: 0 <= i < |c.waiting| ==> Cores(c.listed) + c.waiting[i].cores <= MaxCores(limits)
  }

  lemma StepKeepsWindow(limits: map<string, int>, window: nat, c: Cluster, e: Event)
    requires Enabled(limits, window, c, e) && WindowOk(limits, c) && !e.ListOne? && !e.Join?
    ensures WindowOk(limits, Next(c, e))
  {
    if e.Leave? {
      SumWithout(c.listed, e.i, CoresOf);
    }
  }

  lemma {:induction false} RunKeepsWindow(limits: map<string, int>, window: nat, c: Cluster, es: seq<Event>)
    requires IsRun(limits, window, c, es) && WindowOk(limits, c) && NothingListed(es)
    ensures WindowOk(limits, After(limits, window, c, es))
    decreases |es|
  {
    if es != [] {
      StepKeepsWindow(limits, window, c, es[0]);
      assert NothingListed(es[1..]);
      RunKeepsWindow(limits, window, Next(c, es[0]), es[1..]);
    }
  }

  function Total(c: Cluster, part: Capacity -> nat): nat { Sum(c.listed, part) + Sum(c.waiting, part) }

  function TotalCores(c: Cluster): nat { Total(c, CoresOf) }

  function TotalMemory(c: Cluster): nat { Total(c, MemoryOf) }

  function TotalNodes(c: Cluster): nat { |c.listed| + |c.waiting| }

  /** Listing an admitted node, and losing one, does not raise a total. */
  lemma TotalFalls(limits: map<string, int>, window: nat, c: Cluster, e: Event, part: Capacity -> nat)
    requires Enabled(limits, window, c, e) && !e.Admit? && !e.Join?
    ensures Total(Next(c, e), part) <= Total(c, part)
  {
    match e
    case ListOne(i) =>
      SumWith(c.listed, c.waiting[i], part);
      SumWithout(c.waiting, i, part);
    case Fail(i) => SumWithout(c.waiting, i, part);
    case Leave(i) => SumWithout(c.listed, i, part);
  }

  lemma {:induction false} TotalsOnlyFall(limits: map<string, int>, window: nat, c: Cluster, es: seq<Event>)
    requires IsRun(limits, window, c, es) && NothingAdmitted(es)
    ensures var end := After(limits, window, c, es);
            TotalNodes(end) <= TotalNodes(c) && TotalCores(end) <= TotalCores(c)
    decreases |es|
  {
    if es != [] {
      TotalFalls(limits, window, c, es[0], CoresOf);
      assert NothingAdmitted(es[1..]);
      TotalsOnlyFall(limits, window, Next(c, es[0]), es[1..]);
    }
  }

  /** `k` admissions against one listing overshoot the node limit by at most `k - 1` and the core limit
      by at most the cores of all of them but any one; and so it stays however they are listed, fail or
      leave, until the next admission. */
  lemma OvershootOfOneListing(
    limits: map<string, int>, window: nat, start: seq<Capacity>, es: seq<Event>, later: seq<Event>, i: nat)
    requires IsRun(limits, window, Cluster(start, []), es) && NothingListed(es)
    requires i < |After(limits, window, Cluster(start, []), es).waiting|
    requires IsRun(limits, window, After(limits, window, Cluster(start, []), es), later) && NothingAdmitted(later)
    ensures var admitted := After(limits, window, Cluster(start, []), es).waiting;
            var end := After(limits, window, After(limits, window, Cluster(start, []), es), later);
            && TotalNodes(end) <= MaxNodes(limits) + |admitted| - 1
            && TotalCores(end) <= MaxCores(limits) + Cores(Without(admitted, i))
  {
    var peak := After(limits, window, Cluster(start, []), es);
    RunKeepsWindow(limits, window, Cluster(start, []), es);
    SumWithout(peak.waiting, i, CoresOf);
    TotalsOnlyFall(limits, window, peak, later);
  }

  /** Both bounds are attained: for every `k` there are `k` admissions that reach them exactly. */
  lemma OvershootAttained(k: nat) returns (limits: map<string, int>, es: seq<Event>)
    requires k > 0
    ensures IsRun(limits, k, Cluster([], []), es) && NothingListed(es)
    ensures var c := After(limits, k, Cluster([], []), es);
            && |c.waiting| == k
            && TotalNodes(c) == MaxNodes(limits) + k - 1
            && TotalCores(c) == MaxCores(limits) + Cores(Without(c.waiting, 0))
  {
    limits := map[NODES := 1, CORES := 1, MEMORY := 0];
    es := AdmitCopies(limits, Machine(1, 0), 0, k, [], k);
    SumWithout(Copies(Capacity(1, 0), k), 0, CoresOf);
    assert [] + Copies(Capacity(1, 0), k) == Copies(Capacity(1, 0), k);
  }

  function Copies(node: Capacity, k: nat): (r: seq<Capacity>)
    ensures |r| == k && forall i :: 0 <= i < k ==> r[i] == node
  {
    if k == 0 then [] else [node] + Copies(node, k - 1)
  }

  /** `k` equal admissions while nothing is listed. */
  lemma {:induction false} AdmitCopies(
    limits: map<string, int>, m: Machine, memory: nat, window: nat, waiting: seq<Capacity>, k: nat)
    returns (es: seq<Event>)
    requires |waiting| + k <= window && Fits(limits, [], m)
    ensures IsRun(limits, window, Cluster([], waiting), es) && NothingListed(es)
    ensures forall j :: 0 <= j < |es| ==> es[j] == Admit(m, memory)
    ensures After(limits, window, Cluster([], waiting), es) ==
            Cluster([], waiting + Copies(Capacity(m.vcpu, memory), k))
    decreases k
  {
    if k == 0 {
      es := [];
    } else {
      var node := Capacity(m.vcpu, memory);
      var rest := AdmitCopies(limits, m, memory, window, waiting + [node], k - 1);
      es := [Admit(m, memory)] + rest;
      assert es[1..] == rest;
      assert waiting + [node] + Copies(node, k - 1) == waiting + Copies(node, k);
    }
  }

  /******* Over whole runs *******/

  predicate MachinesUpTo(es: seq<Event>, largest: nat) {
    forall j :: 0 <= j < |es| && es[j].Admit? ==> es[j].machine.vcpu <= largest
  }

  function JoinedNodes(es: seq<Event>): nat {
    if es == [] then 0 else (if es[0].Join? then 1 else 0) + JoinedNodes(es[1..])
  }

  function Joined(es: seq<Event>, part: Capacity -> nat): nat {
    if es == [] then 0 else (if es[0].Join? then part(es[0].node) else 0) + Joined(es[1..], part)
  }

  function JoinedCores(es: seq<Event>): nat { Joined(es, CoresOf) }

  function JoinedMemory(es: seq<Event>): nat { Joined(es, MemoryOf) }

  lemma JoinedFirst(es: seq<Event>, part: Capacity -> nat)
    requires es != []
    ensures JoinedNodes(es) == JoinedNodes([es[0]]) + JoinedNodes(es[1..])
    ensures Joined(es, part) == Joined([es[0]], part) + Joined(es[1..], part)
  {
    assert [es[0]][1..] == [];
  }

  /** A total exceeds `bound` by no more than what joined otherwise. */
  ghost predicate PartOk(part: Capacity -> nat, bound: int, largest: nat, c: Cluster, joined: nat) {
    Total(c, part) <= bound + joined && PartsUpTo(c.waiting, part, largest)
  }

  lemma MulMonotone(a: nat, b: nat, c: nat)
    requires a <= b
    ensures a * c <= b * c
  {
  }

  /** An admitted node that fits under the maximum up to `slack` keeps to what one window may add. */
  lemma AdmitFits(part: Capacity -> nat, max: int, window: nat, largest: nat, slack: nat, c: Cluster, node: Capacity)
    requires |c.waiting| < window && PartsUpTo(c.waiting, part, largest)
    requires Sum(c.listed, part) + part(node) <= max + slack
    ensures Total(c, part) + part(node) <= max + (window - 1) * largest + slack
  {
    SumBound(c.waiting, part, largest);
    MulMonotone(|c.waiting|, window - 1, largest);
  }

  lemma JoinedOne(e: Event, part: Capacity -> nat)
    ensures Joined([e], part) == if e.Join? then part(e.node) else 0
  {
    assert [e][1..] == [];
  }

  /** A step raises a total by what it admits and what joins. */
  lemma StepTotal(limits: map<string, int>, part: Capacity -> nat, window: nat, c: Cluster, e: Event)
    requires Enabled(limits, window, c, e)
    ensures var more := if e.Admit? then part(Capacity(e.machine.vcpu, e.memory)) else 0;
            Total(Next(c, e), part) <= Total(c, part) + more + Joined([e], part)
  {
    JoinedOne(e, part);
    if e.Admit? {
      SumWith(c.waiting, Capacity(e.machine.vcpu, e.memory), part);
    } else if e.Join? {
      SumWith(c.listed, e.node, part);
    } else {
      TotalFalls(limits, window, c, e, part);
    }
  }

  lemma StepKeepsLargest(
    limits: map<string, int>, part: Capacity -> nat, window: nat, largest: nat, c: Cluster, e: Event)
    requires Enabled(limits, window, c, e) && PartsUpTo(c.waiting, part, largest)
    requires e.Admit? ==> part(Capacity(e.machine.vcpu, e.memory)) <= largest
    ensures PartsUpTo(Next(c, e).waiting, part, largest)
  {
  }

  lemma StepKeepsPart(
    limits: map<string, int>, part: Capacity -> nat, bound: int, window: nat, largest: nat, c: Cluster, e: Event,
    joined: nat)
    requires Enabled(limits, window, c, e) && PartOk(part, bound, largest, c, joined)
    requires e.Admit? ==>
               var node := Capacity(e.machine.vcpu, e.memory);
               part(node) <= largest && Total(c, part) + part(node) <= bound
    ensures PartOk(part, bound, largest, Next(c, e), joined + Joined([e], part))
  {
    StepTotal(limits, part, window, c, e);
    StepKeepsLargest(limits, part, window, largest, c, e);
  }

  /** The totals exceed the limits by no more than one window may add, beside `nodes` nodes with `cores`
      cores that were not admitted. */
  ghost predicate TotalsOk(
    limits: map<string, int>, window: nat, largest: nat, c: Cluster, nodes: nat, cores: nat)
  {
    && TotalNodes(c) <= MaxNodes(limits) + window - 1 + nodes
    && PartOk(CoresOf, MaxCores(limits) + (window - 1) * largest, largest, c, cores)
  }

  /** Over a whole run, whichever way admitted nodes are listed one by one, fail or leave, the totals
      exceed the maxima by at most `window - 1` nodes with the cores of the largest machine each, beside
      what joined without being admitted.  With `window == 1` (each admitted node is listed, or fails,
      before the next check) admission alone never exceeds the maxima. */
  lemma {:induction false} TotalsBounded(
    limits: map<string, int>, window: nat, largest: nat, c: Cluster, es: seq<Event>, nodes: nat, cores: nat)
    requires window > 0 && IsRun(limits, window, c, es) && MachinesUpTo(es, largest)
    requires TotalsOk(limits, window, largest, c, nodes, cores)
    ensures TotalsOk(limits, window, largest, After(limits, window, c, es),
                     nodes + JoinedNodes(es), cores + JoinedCores(es))
    decreases |es|
  {
    if es != [] {
      var e, rest := es[0], es[1..];
      var n, k := nodes + JoinedNodes([e]), cores + JoinedCores([e]);
      JoinedFirst(es, CoresOf);
      if e.Admit? {
        AdmitFits(CoresOf, MaxCores(limits), window, largest, 0, c, Capacity(e.machine.vcpu, e.memory));
      }
      StepKeepsPart(limits, CoresOf, MaxCores(limits) + (window - 1) * largest, window, largest, c, e, cores);
      assert MachinesUpTo(rest, largest);
      TotalsBounded(limits, window, largest, Next(c, e), rest, n, k);
      assert n + JoinedNodes(rest) == nodes + JoinedNodes(es) && k + JoinedCores(rest) == cores + JoinedCores(es);
    }
  }

  /******* Memory *******/

  /** Each admitted node reports up to `largest`, and at most `slack` more than was asked for it. */
  predicate ReportsUpTo(es: seq<Event>, largest: nat, slack: nat) {
    forall j :: 0 <= j < |es| && es[j].Admit? ==>
      es[j].memory <= largest && es[j].memory <= es[j].machine.memory + slack
  }

  ghost predicate MemoryOk(limits: map<string, int>, window: nat, largest: nat, slack: nat, c: Cluster, joined: nat) {
    PartOk(MemoryOf, MaxMemory(limits) + (window - 1) * largest + slack, largest, c, joined)
  }

  /** Over a whole run the memory exceeds its maximum by at most `window - 1` of the largest nodes and by what
      one node reports beyond what was asked for it: with a window of one, and nodes that report no more than
      their machines, admission alone never exceeds it. */
  lemma {:induction false} MemoryBounded(
    limits: map<string, int>, window: nat, largest: nat, slack: nat, c: Cluster, es: seq<Event>, joined: nat)
    requires window > 0 && IsRun(limits, window, c, es) && ReportsUpTo(es, largest, slack)
    requires MemoryOk(limits, window, largest, slack, c, joined)
    ensures MemoryOk(limits, window, largest, slack, After(limits, window, c, es), joined + JoinedMemory(es))
    decreases |es|
  {
    if es != [] {
      var e, rest := es[0], es[1..];
      JoinedFirst(es, MemoryOf);
      if e.Admit? {
        AdmitFits(MemoryOf, MaxMemory(limits), window, largest, slack, c, Capacity(e.machine.vcpu, e.memory));
      }
      var bound := MaxMemory(limits) + (window - 1) * largest + slack;
      StepKeepsPart(limits, MemoryOf, bound, window, largest, c, e, joined);
      assert ReportsUpTo(rest, largest, slack);
      MemoryBounded(limits, window, largest, slack, Next(c, e), rest, joined + JoinedMemory([e]));
      assert joined + JoinedMemory([e]) + JoinedMemory(rest) == joined + JoinedMemory(es);
    }
  }

  /** The bound is attained, for every window, largest node and slack. */
  lemma MemoryBoundAttained(window: nat, largest: nat, slack: nat) returns (limits: map<string, int>, es: seq<Event>)
    requires window > 0 && slack <= largest
    ensures MaxMemory(limits) >= 0 && IsRun(limits, window, Cluster([], []), es)
    ensures ReportsUpTo(es, largest, slack) && JoinedMemory(es) == 0
    ensures TotalMemory(After(limits, window, Cluster([], []), es)) ==
            MaxMemory(limits) + (window - 1) * largest + slack
  {
    var m, node := Machine(0, largest - slack), Capacity(0, largest);
    limits := map[MEMORY := largest - slack];
    es := AdmitCopies(limits, m, largest, window, [], window);
    assert [] + Copies(node, window) == Copies(node, window);
    SumOfCopies(node, window, MemoryOf);
    OneMoreTimes(window, largest);
    NoJoins(es, MemoryOf);
  }

  lemma OneMoreTimes(k: nat, x: nat)
    ensures k * x == (k - 1) * x + x
  {
  }

  lemma {:induction false} SumOfCopies(node: Capacity, k: nat, part: Capacity -> nat)
    ensures Sum(Copies(node, k), part) == k * part(node)
  {
    if k > 0 {
      SumOfCopies(node, k - 1, part);
      assert Copies(node, k)[..k - 1] == Copies(node, k - 1);
    }
  }

  lemma {:induction false} NoJoins(es: seq<Event>, part: Capacity -> nat)
    requires forall j :: 0 <= j < |es| ==> !es[j].Join?
    ensures Joined(es, part) == 0
  {
    if es != [] {
      NoJoins(es[1..], part);
    }
  }

  const MEGABYTE := 1024 * 1024

  lemma MoreThan(max: nat)
    requires max > 0
    ensures 0 < max / MEGABYTE + 1 <= max < (max / MEGABYTE + 1) * MEGABYTE
  {
  }

  /** One machine is admitted to an empty cluster and listed. */
  lemma AdmitAndList(max: nat, m: Machine, memory: nat)
    requires m.vcpu == 1 && m.memory <= max
    ensures var limits, c, es := map[MEMORY := max], Cluster([], []), [Admit(m, memory), ListOne(0)];
            IsRun(limits, 1, c, es) && After(limits, 1, c, es) == Cluster([Capacity(1, memory)], [])
  {
    var limits, c, es := map[MEMORY := max], Cluster([], []), [Admit(m, memory), ListOne(0)];
    assert Fits(limits, [], m);
    var d := Next(c, es[0]);
    assert d.waiting == [Capacity(1, memory)];
    var t := Next(d, es[1]);
    assert t == Cluster([Capacity(1, memory)], []);
    assert es[1..] == [es[1]] && [es[1]][1..] == [];
    assert IsRun(limits, 1, t, []) && After(limits, 1, t, []) == t;
    assert IsRun(limits, 1, d, [es[1]]) && After(limits, 1, d, [es[1]]) == t;
  }

  /** The check takes a machine's megabytes for bytes: under every maximum, a machine larger than all of it
      is admitted, and its memory alone exceeds the maximum once it is listed, with a window of one. */
  lemma MegabytesExceedEveryMaximum(max: nat) returns (megabytes: nat, es: seq<Event>)
    requires max > 0
    ensures es == [Admit(Machine(1, megabytes), megabytes * MEGABYTE), ListOne(0)]
    ensures var limits, c := map[MEMORY := max], Cluster([], []);
            IsRun(limits, 1, c, es) && Memory(After(limits, 1, c, es).listed) > MaxMemory(limits) == max
  {
    megabytes := max / MEGABYTE + 1;
    var memory := megabytes * MEGABYTE;
    MoreThan(max);
    AdmitAndList(max, Machine(1, megabytes), memory);
    SumWith([], Capacity(1, memory), MemoryOf);
    assert [] + [Capacity(1, memory)] == [Capacity(1, memory)];
    es := [Admit(Machine(1, megabytes), memory), ListOne(0)];
  }
}
