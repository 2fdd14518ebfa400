/**
 The limits along runs of the controller: the machine of `ControllerRuns` together with what the node
 lister shows.

 A handling that registers a node is an admission against the listing it looked at.  The node then
 waits until it is listed, on its own, or until its launch fails or it is deleted.  Handlings that
 register against a failed listing are not part of these runs: they admit anything.
 */
module AdmissionRuns {
  import opened Wrappers
  import opened Reconcile
  import A = Admission
  import CR = ControllerRuns

  /** A registered node that is not listed yet, with the capacity it will report. */
  datatype Waiting = Waiting(vm: Vm, node: A.Capacity)

  datatype State = State(control: CR.State, listed: seq<A.Capacity>, waiting: seq<Waiting>)

  /** `memory` is what a node reports if the step registers one. */
  datatype Event =
    | Control(step: CR.Event, memory: nat)
    | Appear(i: nat)
    | GiveUp(i: nat)
    | Leave(i: nat)
    | Join(node: A.Capacity)

  /** The node a step of the controller registers. */
  function Registers(s: CR.State, e: CR.Event): Option<Vm> {
    if e.HandleKey? && e.look.listed.Some? && Decide(s.world, e.look, e.look.listed.value).Register?
    then Some(Decide(s.world, e.look, e.look.listed.value).vm)
    else None
  }

  function PositionOf(waiting: seq<Waiting>, vm: Vm): (r: Option<nat>)
    ensures r.Some? ==> r.value < |waiting| && waiting[r.value].vm == vm
    ensures r.None? ==> forall i :: 0 <= i < |waiting| ==> waiting[i].vm != vm
  {
    if waiting == [] then None
    else if waiting[|waiting| - 1].vm == vm then Some(|waiting| - 1)
    else PositionOf(waiting[..|waiting| - 1], vm)
  }

  /** The waiting node a failed launch concerns. */
  function Fails(s: State, e: CR.Event): Option<nat> {
    if e.LaunchOne? && e.launch.LaunchFailed? then PositionOf(s.waiting, e.vm) else None
  }

  predicate Enabled(limits: map<string, int>, window: nat, s: State, e: Event) {
    match e
    case Control(step, _) =>
      && CR.Enabled(s.control, step)
      && (Registers(s.control, step).Some? ==>
            step.look.limits == limits && step.look.listing == Some(s.listed) && |s.waiting| < window)
    case Appear(i) => i < |s.waiting|
    case GiveUp(i) => i < |s.waiting|
    case Leave(i) => i < |s.listed|
    case Join(_) => true
  }

  function Next(limits: map<string, int>, window: nat, s: State, e: Event): State
    requires Enabled(limits, window, s, e)
  {
    match e
    case Control(step, memory) =>
      var t := s.(control := CR.Next(s.control, step));
      var vm, failed := Registers(s.control, step), Fails(s, step);
      if vm.Some? then
        t.(waiting := s.waiting + [Waiting(vm.value, A.Capacity(step.look.machine.value.vcpu, memory))])
      else if failed.Some? then t.(waiting := A.Without(s.waiting, failed.value))
      else t
    case Appear(i) => s.(listed := s.listed + [s.waiting[i].node], waiting := A.Without(s.waiting, i))
    case GiveUp(i) => s.(waiting := A.Without(s.waiting, i))
    case Leave(i) => s.(listed := A.Without(s.listed, i))
    case Join(node) => s.(listed := s.listed + [node])
  }

  predicate IsRun(limits: map<string, int>, window: nat, s: State, es: seq<Event>)
    decreases |es|
  {
    es == [] || (Enabled(limits, window, s, es[0]) && IsRun(limits, window, Next(limits, window, s, es[0]), es[1..]))
  }

  function After(limits: map<string, int>, window: nat, s: State, es: seq<Event>): State
    requires IsRun(limits, window, s, es)
    decreases |es|
  {
    if es == [] then s else After(limits, window, Next(limits, window, s, es[0]), es[1..])
  }

  /******* The controller's part *******/

  function Steps(es: seq<Event>): seq<CR.Event> {
    if es == [] then [] else (if es[0].Control? then [es[0].step] else []) + Steps(es[1..])
  }

  /** The controller's part of a run is a run of the controller. */
  lemma {:induction false} ControlIsRun(limits: map<string, int>, window: nat, s: State, es: seq<Event>)
    requires IsRun(limits, window, s, es)
    ensures CR.IsRun(s.control, Steps(es))
    ensures CR.After(s.control, Steps(es)) == After(limits, window, s, es).control
    decreases |es|
  {
    if es != [] {
      ControlIsRun(limits, window, Next(limits, window, s, es[0]), es[1..]);
      if es[0].Control? {
        assert Steps(es)[0] == es[0].step && Steps(es)[1..] == Steps(es[1..]);
      } else {
        assert Steps(es) == Steps(es[1..]);
      }
    }
  }

  /******* The listing's part *******/

  function Nodes(waiting: seq<Waiting>): (r: seq<A.Capacity>)
    ensures |r| == |waiting|
  {
    seq(|waiting|, i requires 0 <= i < |waiting| => waiting[i].node)
  }

  function ClusterOf(s: State): A.Cluster { A.Cluster(s.listed, Nodes(s.waiting)) }

  /** The admission events of a step. */
  function Projected(s: State, e: Event): seq<A.Event> {
    match e
    case Control(step, memory) =>
      if Registers(s.control, step).Some? && step.look.machine.Some? then
        [A.Admit(step.look.machine.value, memory)]
      else if Fails(s, step).Some? then [A.Fail(Fails(s, step).value)]
      else []
    case Appear(i) => [A.ListOne(i)]
    case GiveUp(i) => [A.Fail(i)]
    case Leave(i) => [A.Leave(i)]
    case Join(node) => [A.Join(node)]
  }

  lemma NodesWithout(waiting: seq<Waiting>, i: nat)
    requires i < |waiting|
    ensures Nodes(A.Without(waiting, i)) == A.Without(Nodes(waiting), i)
  {
  }

  lemma ControlProjects(limits: map<string, int>, window: nat, s: State, step: CR.Event, memory: nat)
    requires Enabled(limits, window, s, Control(step, memory))
    ensures var es, t := Projected(s, Control(step, memory)), Next(limits, window, s, Control(step, memory));
            if es == [] then ClusterOf(t) == ClusterOf(s)
            else
              && |es| == 1 && A.Enabled(limits, window, ClusterOf(s), es[0])
              && A.Next(ClusterOf(s), es[0]) == ClusterOf(t)
  {
    var t := Next(limits, window, s, Control(step, memory));
    if Registers(s.control, step).Some? {
      var node := A.Capacity(step.look.machine.value.vcpu, memory);
      assert Nodes(t.waiting) == Nodes(s.waiting) + [node];
    } else if Fails(s, step).Some? {
      NodesWithout(s.waiting, Fails(s, step).value);
    }
  }

  /** Each step is at most one admission event: a registration is an admission against its listing. */
  lemma StepProjects(limits: map<string, int>, window: nat, s: State, e: Event)
    requires Enabled(limits, window, s, e)
    ensures var es, t := Projected(s, e), Next(limits, window, s, e);
            if es == [] then ClusterOf(t) == ClusterOf(s)
            else
              && |es| == 1 && A.Enabled(limits, window, ClusterOf(s), es[0])
              && A.Next(ClusterOf(s), es[0]) == ClusterOf(t)
  {
    match e
    case Control(step, memory) => ControlProjects(limits, window, s, step, memory);
    case Appear(i) => NodesWithout(s.waiting, i);
    case GiveUp(i) => NodesWithout(s.waiting, i);
    case Leave(_) =>
    case Join(_) =>
  }

  function Admissions(limits: map<string, int>, window: nat, s: State, es: seq<Event>): seq<A.Event>
    requires IsRun(limits, window, s, es)
    decreases |es|
  {
    if es == [] then []
    else Projected(s, es[0]) + Admissions(limits, window, Next(limits, window, s, es[0]), es[1..])
  }

  /** The listing's part of a run is a run of admissions. */
  lemma {:induction false} AdmissionsAreRun(limits: map<string, int>, window: nat, s: State, es: seq<Event>)
    requires IsRun(limits, window, s, es)
    ensures var admissions := Admissions(limits, window, s, es);
            && A.IsRun(limits, window, ClusterOf(s), admissions)
            && A.After(limits, window, ClusterOf(s), admissions) == ClusterOf(After(limits, window, s, es))
    decreases |es|
  {
    if es != [] {
      var t := Next(limits, window, s, es[0]);
      var first, rest := Projected(s, es[0]), Admissions(limits, window, t, es[1..]);
      AdmissionsAreRun(limits, window, t, es[1..]);
      StepProjects(limits, window, s, es[0]);
      if first == [] {
        assert first + rest == rest;
      } else {
        assert (first + rest)[0] == first[0] && (first + rest)[1..] == rest;
      }
    }
  }

  /** Only machines of up to `largest` cores are asked for. */
  predicate LooksUpTo(es: seq<Event>, largest: nat) {
    forall j :: 0 <= j < |es| && es[j].Control? && es[j].step.HandleKey? && es[j].step.look.machine.Some? ==>
      es[j].step.look.machine.value.vcpu <= largest
  }

  /** What is registered reports up to `largest` memory, and at most `slack` more than was asked for it. */
  predicate MemoryUpTo(es: seq<Event>, largest: nat, slack: nat) {
    forall j :: 0 <= j < |es| && es[j].Control? && es[j].step.HandleKey? && es[j].step.look.machine.Some? ==>
      es[j].memory <= largest && es[j].memory <= es[j].step.look.machine.value.memory + slack
  }

  /** The nodes that joined without being admitted. */
  function Joins(es: seq<Event>): seq<A.Event> {
    if es == [] then [] else (if es[0].Join? then [A.Join(es[0].node)] else []) + Joins(es[1..])
  }

  lemma {:induction false} JoinsKept(
    limits: map<string, int>, window: nat, s: State, es: seq<Event>, part: A.Capacity -> nat)
    requires IsRun(limits, window, s, es)
    ensures var admissions := Admissions(limits, window, s, es);
            && A.JoinedNodes(admissions) == A.JoinedNodes(Joins(es))
            && A.Joined(admissions, part) == A.Joined(Joins(es), part)
    decreases |es|
  {
    if es != [] {
      var t := Next(limits, window, s, es[0]);
      var first, rest := Projected(s, es[0]), Admissions(limits, window, t, es[1..]);
      JoinsKept(limits, window, t, es[1..], part);
      if first == [] {
        assert first + rest == rest;
      } else {
        assert (first + rest)[0] == first[0] && (first + rest)[1..] == rest;
      }
      if es[0].Join? {
        assert Joins(es)[0] == A.Join(es[0].node) && Joins(es)[1..] == Joins(es[1..]);
      } else {
        assert Joins(es) == Joins(es[1..]);
      }
    }
  }

  lemma {:induction false} MachinesKept(limits: map<string, int>, window: nat, s: State, es: seq<Event>, largest: nat)
    requires IsRun(limits, window, s, es) && LooksUpTo(es, largest)
    ensures A.MachinesUpTo(Admissions(limits, window, s, es), largest)
    decreases |es|
  {
    if es != [] {
      assert LooksUpTo(es[1..], largest);
      MachinesKept(limits, window, Next(limits, window, s, es[0]), es[1..], largest);
    }
  }

  lemma {:induction false} ReportsKept(
    limits: map<string, int>, window: nat, s: State, es: seq<Event>, largest: nat, slack: nat)
    requires IsRun(limits, window, s, es) && MemoryUpTo(es, largest, slack)
    ensures A.ReportsUpTo(Admissions(limits, window, s, es), largest, slack)
    decreases |es|
  {
    if es != [] {
      assert MemoryUpTo(es[1..], largest, slack);
      ReportsKept(limits, window, Next(limits, window, s, es[0]), es[1..], largest, slack);
    }
  }

  /******* The limits *******/

  /** Along every run of the controller whose registrations saw a listing, the nodes and cores that are
      listed or to be listed exceed the maxima by at most what one window adds, beside what joined
      without being admitted; with a window of one, admission alone never exceeds them. */
  lemma TotalsAlongRuns(
    limits: map<string, int>, window: nat, largest: nat, control: CR.State, listed: seq<A.Capacity>, es: seq<Event>)
    requires window > 0 && IsRun(limits, window, State(control, listed, []), es) && LooksUpTo(es, largest)
    requires |listed| <= A.MaxNodes(limits) && A.Cores(listed) <= A.MaxCores(limits)
    ensures var end := ClusterOf(After(limits, window, State(control, listed, []), es));
            && A.TotalNodes(end) <= A.MaxNodes(limits) + window - 1 + A.JoinedNodes(Joins(es))
            && A.TotalCores(end) <= A.MaxCores(limits) + (window - 1) * largest + A.JoinedCores(Joins(es))
  {
    var s := State(control, listed, []);
    AdmissionsAreRun(limits, window, s, es);
    MachinesKept(limits, window, s, es, largest);
    JoinsKept(limits, window, s, es, A.CoresOf);
    A.MulMonotone(0, window - 1, largest);
    A.TotalsBounded(limits, window, largest, ClusterOf(s), Admissions(limits, window, s, es), 0, 0);
  }

  /** And their memory, as far as the registered nodes report what their machines have. */
  lemma MemoryAlongRuns(
    limits: map<string, int>, window: nat, largest: nat, slack: nat, control: CR.State, listed: seq<A.Capacity>,
    es: seq<Event>)
    requires window > 0 && IsRun(limits, window, State(control, listed, []), es) && MemoryUpTo(es, largest, slack)
    requires A.Memory(listed) <= A.MaxMemory(limits)
    ensures A.TotalMemory(ClusterOf(After(limits, window, State(control, listed, []), es))) <=
            A.MaxMemory(limits) + (window - 1) * largest + slack + A.JoinedMemory(Joins(es))
  {
    var s := State(control, listed, []);
    AdmissionsAreRun(limits, window, s, es);
    ReportsKept(limits, window, s, es, largest, slack);
    JoinsKept(limits, window, s, es, A.MemoryOf);
    A.MulMonotone(0, window - 1, largest);
    A.MemoryBounded(limits, window, largest, slack, ClusterOf(s), Admissions(limits, window, s, es), 0);
  }

  predicate NothingAppears(es: seq<Event>) { forall j :: 0 <= j < |es| ==> !es[j].Appear? && !es[j].Join? }

  lemma {:induction false} NothingAppearsNothingListed(
    limits: map<string, int>, window: nat, s: State, es: seq<Event>)
    requires IsRun(limits, window, s, es) && NothingAppears(es)
    ensures A.NothingListed(Admissions(limits, window, s, es))
    decreases |es|
  {
    if es != [] {
      assert NothingAppears(es[1..]);
      NothingAppearsNothingListed(limits, window, Next(limits, window, s, es[0]), es[1..]);
    }
  }

  /** A drain registers its nodes before any of them is listed: then the totals exceed the maxima by at
      most all but one of the nodes that wait. */
  lemma OvershootOfOneDrain(
    limits: map<string, int>, window: nat, control: CR.State, listed: seq<A.Capacity>, es: seq<Event>, i: nat)
    requires IsRun(limits, window, State(control, listed, []), es) && NothingAppears(es)
    requires i < |After(limits, window, State(control, listed, []), es).waiting|
    ensures var end := ClusterOf(After(limits, window, State(control, listed, []), es));
            && A.TotalNodes(end) <= A.MaxNodes(limits) + |end.waiting| - 1
            && A.TotalCores(end) <= A.MaxCores(limits) + A.Cores(A.Without(end.waiting, i))
  {
    var s := State(control, listed, []);
    assert ClusterOf(s) == A.Cluster(listed, []);
    AdmissionsAreRun(limits, window, s, es);
    NothingAppearsNothingListed(limits, window, s, es);
    A.OvershootOfOneListing(limits, window, listed, Admissions(limits, window, s, es), [], i);
  }
}
