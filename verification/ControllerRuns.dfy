/**
 Runs of the ManagedNode controller: the worker's handlings, launches and reports interleaved
 with deletions by informer callbacks, with ManagedNodes and node groups that come and go, and with
 nodes of other kinds in the groups.

 `starting` separates the worker's two phases: it drains the queue, then starts the batch, then
 drops the batch.  A batch entry is dropped once reported.
 */
module ControllerRuns {
  import opened Wrappers
  import opened Admission
  import opened Reconcile

  datatype State = State(world: World, starting: bool)

  /** `NodeEnters` is a node the controller did not register: an autoscaled one, whose UID is empty, while it
      is pending or when it was launched, or a discovered one (server/nodegroup.go 376-407, 708-776).
      `Clear` drops all pending nodes of a group (419), and at a discovery all its nodes (648-649). */
  datatype Event =
    | HandleKey(key: string, look: Look)
    | Delete(vm: Vm)
    | AddGroup(name: string)
    | RemoveGroup(name: string)
    | AddManagedNode(key: string, mn: ManagedNode)
    | RemoveManagedNode(key: string)
    | StartBatch
    | LaunchOne(vm: Vm, launch: Launch)
    | ReportOne(group: string, fate: Fate)
    | NextDrain
    | NodeEnters(vm: Vm, launched: bool)
    | Clear(group: string, all: bool)

  predicate Member(w: World, vm: Vm) {
    && vm.group in w.groups
    && ((vm.name in w.groups[vm.group].pending && w.groups[vm.group].pending[vm.name] == vm)
        || (vm.name in w.groups[vm.group].nodes && w.groups[vm.group].nodes[vm.name] == vm))
  }

  predicate Enabled(s: State, e: Event) {
    match e
    case HandleKey(_, _) => !s.starting
    case Delete(vm) => Member(s.world, vm)
    case AddGroup(g) => g !in s.world.groups
    case RemoveGroup(g) => g in s.world.groups
    case RemoveManagedNode(key) => key in s.world.store
    case AddManagedNode(key, mn) =>
      && key !in s.world.store
      && forall k :: k in s.world.store ==> s.world.store[k].uid != mn.uid
    case StartBatch => !s.starting
    case LaunchOne(vm, _) => s.starting && vm in s.world.BatchOf(vm.group)
    case ReportOne(g, _) => s.starting && s.world.BatchOf(g) != []
    case NextDrain => s.starting
    case NodeEnters(vm, _) => vm.group in s.world.groups
    case Clear(g, _) => g in s.world.groups
  }

  function Entered(g: Group, vm: Vm, launched: bool): Group {
    if launched then Group(g.pending - {vm.name}, g.nodes[vm.name := vm])
    else Group(g.pending[vm.name := vm], g.nodes)
  }

  function Next(s: State, e: Event): State
    requires Enabled(s, e)
  {
    var w := s.world;
    match e
    case HandleKey(key, look) => s.(world := Handle(w, key, look).world)
    case Delete(vm) => s.(world := DeleteVm(w, vm))
    case AddGroup(g) => s.(world := w.(groups := w.groups[g := Group(map[], map[])]))
    case RemoveGroup(g) => s.(world := w.(groups := w.groups - {g}))
    case RemoveManagedNode(key) => s.(world := w.(store := w.store - {key}))
    case AddManagedNode(key, mn) => s.(world := w.(store := w.store[key := mn]))
    case StartBatch => s.(starting := true)
    case LaunchOne(vm, launch) => s.(world := LaunchVm(w, vm, launch))
    case ReportOne(g, fate) =>
      s.(world := ReportVm(w, w.batch[g][0], fate).(batch := w.batch[g := w.batch[g][1..]]))
    case NextDrain => State(w.(batch := map[], uidKeys := map[]), false)
    case NodeEnters(vm, launched) =>
      s.(world := w.(groups := w.groups[vm.group := Entered(w.groups[vm.group], vm, launched)]))
    case Clear(g, all) =>
      s.(world := w.(groups := w.groups[g := Group(map[], if all then map[] else w.groups[g].nodes)]))
  }

  predicate IsRun(s: State, es: seq<Event>)
    decreases |es|
  {
    es == [] || (Enabled(s, es[0]) && IsRun(Next(s, es[0]), es[1..]))
  }

  function After(s: State, es: seq<Event>): State
    requires IsRun(s, es)
    decreases |es|
  {
    if es == [] then s else After(Next(s, es[0]), es[1..])
  }

  predicate Initial(s: State) {
    !s.starting && s.world.groups == map[] && s.world.batch == map[] && s.world.uidKeys == map[]
  }

  /******* At most one live node per ManagedNode UID *******/

  /** The nodes of group `g`, registered or about to be launched. */
  ghost predicate Owned(w: World, g: string, vm: Vm) {
    || vm in w.BatchOf(g)
    || (g in w.groups && (vm in w.groups[g].pending.Values || vm in w.groups[g].nodes.Values))
  }

  ghost predicate Named(w: World) {
    forall g :: g in w.groups ==>
      && (forall n :: n in w.groups[g].pending ==>
            w.groups[g].pending[n].name == n && w.groups[g].pending[n].group == g)
      && (forall n :: n in w.groups[g].nodes ==> w.groups[g].nodes[n].name == n && w.groups[g].nodes[n].group == g)
  }

  /** No two nodes of a group, registered or in the batch, have UID `u` under different names.  Other nodes,
      such as autoscaled ones, which all have the empty UID, may be there in any number. */
  ghost predicate OneNodeOf(w: World, u: string) {
    forall g, a, b :: Owned(w, g, a) && Owned(w, g, b) && a.uid == b.uid == u ==> a.name == b.name
  }

  /** The batch holds no node of this ManagedNode under another name. */
  predicate NotInBatchElsewhere(w: World, vm: Vm) {
    forall b :: b in w.BatchOf(vm.group) && b.uid == vm.uid ==> b.name == vm.name
  }

  /** What a handling that registers a node of `u` would have to check beside the group; and a node of `u`
      that enters otherwise has no other beside it. */
  ghost predicate Guarded(s: State, e: Event, u: string) {
    && (e.HandleKey? && e.look.listed.Some? ==>
          var d := Decide(s.world, e.look, e.look.listed.value);
          d.Register? && d.vm.uid == u ==> NotInBatchElsewhere(s.world, d.vm))
    && (e.NodeEnters? && e.vm.uid == u ==>
          forall b :: Owned(s.world, e.vm.group, b) && b.uid == u ==> b.name == e.vm.name)
  }

  lemma OwnedAfterHandle(w: World, key: string, look: Look, g: string, vm: Vm)
    requires Named(w)
    ensures var w' := Handle(w, key, look).world;
            Owned(w', g, vm) ==>
              || Owned(w, g, vm)
              || (look.listed.Some? && Decide(w, look, look.listed.value) == Register(vm) && vm.group == g)
  {
  }

  lemma RegisteredIsOwned(w: World, key: string, look: Look)
    requires look.listed.Some? && Decide(w, look, look.listed.value).Register?
    ensures var vm := Decide(w, look, look.listed.value).vm;
            var w' := Handle(w, key, look).world;
            && Owned(w', vm.group, vm)
            && w'.BatchOf(vm.group) == w.BatchOf(vm.group) + [vm]
            && w'.groups[vm.group].pending == w.groups[vm.group].pending[vm.name := vm]
  {
  }

  lemma GuardedHandleKeepsOneNode(w: World, key: string, look: Look, u: string)
    requires Named(w) && OneNodeOf(w, u) && Guarded(State(w, false), HandleKey(key, look), u)
    ensures OneNodeOf(Handle(w, key, look).world, u)
  {
    var w' := Handle(w, key, look).world;
    forall g, a, b | Owned(w', g, a) && Owned(w', g, b) && a.uid == b.uid == u ensures a.name == b.name {
      OwnedAfterHandle(w, key, look, g, a);
      OwnedAfterHandle(w, key, look, g, b);
    }
  }

  lemma HandleKeepsNamed(w: World, key: string, look: Look)
    requires Named(w)
    ensures Named(Handle(w, key, look).world)
  {
  }

  /** A handling keeps the law of one node for `u` iff it is guarded, however stale the lister's copy is and
      whatever other nodes there are. */
  lemma HandleKeepsOneNodeIff(s: State, key: string, look: Look, u: string)
    requires Named(s.world) && OneNodeOf(s.world, u)
    ensures Named(Handle(s.world, key, look).world)
    ensures OneNodeOf(Handle(s.world, key, look).world, u) <==> Guarded(s, HandleKey(key, look), u)
  {
    var w, w' := s.world, Handle(s.world, key, look).world;
    HandleKeepsNamed(w, key, look);
    if Guarded(s, HandleKey(key, look), u) {
      GuardedHandleKeepsOneNode(w, key, look, u);
    } else {
      var vm := Decide(w, look, look.listed.value).vm;
      RegisteredIsOwned(w, key, look);
      var b :| b in w.BatchOf(vm.group) && b.uid == vm.uid && b.name != vm.name;
      assert b in w'.BatchOf(vm.group);
      assert Owned(w', vm.group, b) && Owned(w', vm.group, vm);
    }
  }

  /** Every other step but an entry only removes nodes or moves batch nodes into the group. */
  lemma OwnedAfterOther(s: State, e: Event, g: string, vm: Vm)
    requires Enabled(s, e) && !e.HandleKey?
    ensures Owned(Next(s, e).world, g, vm) ==> Owned(s.world, g, vm) || (e.NodeEnters? && vm == e.vm && g == e.vm.group)
  {
  }

  lemma OtherKeepsNamed(s: State, e: Event)
    requires Enabled(s, e) && !e.HandleKey? && Named(s.world)
    ensures Named(Next(s, e).world)
  {
  }

  lemma GuardedStepKeepsOneNode(s: State, e: Event, u: string)
    requires Named(s.world) && OneNodeOf(s.world, u) && Enabled(s, e) && Guarded(s, e, u)
    ensures Named(Next(s, e).world) && OneNodeOf(Next(s, e).world, u)
  {
    if e.HandleKey? {
      HandleKeepsOneNodeIff(s, e.key, e.look, u);
    } else {
      var w' := Next(s, e).world;
      OtherKeepsNamed(s, e);
      forall g, a, b | Owned(w', g, a) && Owned(w', g, b) && a.uid == b.uid == u ensures a.name == b.name {
        OwnedAfterOther(s, e, g, a);
        OwnedAfterOther(s, e, g, b);
      }
    }
  }

  ghost predicate GuardedRun(s: State, es: seq<Event>, u: string)
    requires IsRun(s, es)
    decreases |es|
  {
    es == [] || (Guarded(s, es[0], u) && GuardedRun(Next(s, es[0]), es[1..], u))
  }

  /** Over every guarded run, whatever the lister shows, whichever deletes interleave and whatever other nodes
      come and go, a group holds at most one live node for the ManagedNode UID `u`. */
  lemma {:induction false} GuardedRunsKeepOneNode(s: State, es: seq<Event>, u: string)
    requires Named(s.world) && OneNodeOf(s.world, u)
    requires IsRun(s, es) && GuardedRun(s, es, u)
    ensures Named(After(s, es).world) && OneNodeOf(After(s, es).world, u)
    decreases |es|
  {
    if es != [] {
      GuardedStepKeepsOneNode(s, es[0], u);
      GuardedRunsKeepOneNode(Next(s, es[0]), es[1..], u);
    }
  }

  /** The guard is needed for live nodes: from every unguarded handling a run goes on to two of them. */
  lemma UnguardedCanDuplicate(s: State, key: string, look: Look, u: string) returns (es: seq<Event>, a: Vm, b: Vm)
    requires !s.starting && !Guarded(s, HandleKey(key, look), u)
    requires forall g, x :: x in s.world.BatchOf(g) ==> x.group == g
    ensures es == [HandleKey(key, look), StartBatch, LaunchOne(a, Launched)] && IsRun(s, es)
    ensures Member(After(s, es).world, a) && Member(After(s, es).world, b)
    ensures a.group == b.group && a.uid == b.uid == u && a.name != b.name
  {
    b := Decide(s.world, look, look.listed.value).vm;
    a :| a in s.world.BatchOf(b.group) && a.uid == b.uid && a.name != b.name;
    RegisteredIsOwned(s.world, key, look);
    var t := Next(s, HandleKey(key, look));
    assert a in t.world.BatchOf(b.group);
    var t' := Next(t, StartBatch);
    var t'' := Next(t', LaunchOne(a, Launched));
    es := [HandleKey(key, look), StartBatch, LaunchOne(a, Launched)];
    assert es[1..] == [StartBatch, LaunchOne(a, Launched)] && es[1..][1..] == [LaunchOne(a, Launched)];
    assert es[1..][1..][1..] == [];
    assert IsRun(t'', []) && After(t'', []) == t'';
    assert IsRun(t', es[1..][1..]) && After(t', es[1..][1..]) == t'';
    assert IsRun(t, es[1..]) && After(t, es[1..]) == t'';
  }

  /******* A condition on deletes that implies the guard *******/

  /** The step takes batch node `b` out of the pending nodes of its group. */
  predicate Removes(e: Event, b: Vm) {
    || (e.Delete? && !e.vm.controlPlane && e.vm.group == b.group && e.vm.name == b.name)
    || (e.Clear? && e.group == b.group)
    || (e.RemoveGroup? && e.name == b.group)
  }

  /** A node of `u` was removed while it waits in the batch. */
  ghost predicate Retired(s: State, e: Event, u: string, retired: bool) {
    !e.NextDrain? && (retired || exists g, b :: b in s.world.BatchOf(g) && b.uid == u && Removes(e, b))
  }

  /** `addManagedNode` picks an unused name, as does whatever else enters; a node that enters is not of `u`; and
      once a node of `u` was removed from the batch, `u` is not registered again in that round.  So it is
      when `deleteManagedNode` removes it: its ManagedNode is no longer listed then. */
  ghost predicate Careful(s: State, e: Event, u: string, retired: bool) {
    && (e.HandleKey? && e.look.listed.Some? ==>
          var d := Decide(s.world, e.look, e.look.listed.value);
          d.Register? ==>
            var g := s.world.groups[d.vm.group];
            d.vm.name !in g.pending && d.vm.name !in g.nodes && (d.vm.uid == u ==> !retired))
    && (e.NodeEnters? ==>
          e.vm.uid != u && forall b :: b in s.world.BatchOf(e.vm.group) ==> b.name != e.vm.name)
  }

  ghost predicate CarefulRun(s: State, es: seq<Event>, u: string, retired: bool)
    requires IsRun(s, es)
    decreases |es|
  {
    es == [] || (Careful(s, es[0], u, retired) && CarefulRun(Next(s, es[0]), es[1..], u, Retired(s, es[0], u, retired)))
  }

  predicate PendingEntry(w: World, g: string, b: Vm) {
    && g in w.groups && b.group == g
    && b.name in w.groups[g].pending && w.groups[g].pending[b.name] == b
    && b.name !in w.groups[g].nodes
  }

  /** While the queue is drained, what is in the batch for `u` is pending under its own name, unless it was
      removed. */
  ghost predicate BatchPending(s: State, u: string, retired: bool) {
    !s.starting && !retired ==>
      forall g, b :: b in s.world.BatchOf(g) && b.uid == u ==> PendingEntry(s.world, g, b)
  }

  lemma CarefulKeepsEntry(s: State, e: Event, u: string, g: string, b: Vm)
    requires Enabled(s, e) && Careful(s, e, u, false) && !s.starting && !Retired(s, e, u, false)
    requires b in s.world.BatchOf(g) && b.uid == u && PendingEntry(s.world, g, b)
    ensures PendingEntry(Next(s, e).world, g, b)
  {
    assert !Removes(e, b);
  }

  lemma CarefulAddsEntry(s: State, e: Event, u: string, g: string, b: Vm)
    requires Enabled(s, e) && Careful(s, e, u, false) && !s.starting
    requires b in Next(s, e).world.BatchOf(g) && b !in s.world.BatchOf(g)
    ensures PendingEntry(Next(s, e).world, g, b)
  {
  }

  lemma CarefulKeepsBatchPending(s: State, e: Event, u: string, retired: bool)
    requires BatchPending(s, u, retired) && Enabled(s, e) && Careful(s, e, u, retired)
    ensures BatchPending(Next(s, e), u, Retired(s, e, u, retired))
  {
    if !s.starting && !Retired(s, e, u, retired) {
      assert !retired;
      forall g, b | b in Next(s, e).world.BatchOf(g) && b.uid == u ensures PendingEntry(Next(s, e).world, g, b) {
        if b in s.world.BatchOf(g) {
          CarefulKeepsEntry(s, e, u, g, b);
        } else {
          CarefulAddsEntry(s, e, u, g, b);
        }
      }
    }
  }

  lemma BatchPendingGuards(s: State, e: Event, u: string, retired: bool)
    requires BatchPending(s, u, retired) && Enabled(s, e) && Careful(s, e, u, retired)
    ensures Guarded(s, e, u)
  {
    if e.HandleKey? && e.look.listed.Some? && Decide(s.world, e.look, e.look.listed.value).Register? {
      var vm := Decide(s.world, e.look, e.look.listed.value).vm;
      if vm.uid == u {
        assert !s.world.groups[vm.group].HasUid(u);
        assert forall b :: PendingEntry(s.world, vm.group, b) ==> b.uid != u;
      }
    }
  }

  lemma {:induction false} CarefulRunsAreGuarded(s: State, es: seq<Event>, u: string, retired: bool)
    requires BatchPending(s, u, retired) && IsRun(s, es) && CarefulRun(s, es, u, retired)
    ensures GuardedRun(s, es, u)
    decreases |es|
  {
    if es != [] {
      CarefulKeepsBatchPending(s, es[0], u, retired);
      BatchPendingGuards(s, es[0], u, retired);
      CarefulRunsAreGuarded(Next(s, es[0]), es[1..], u, Retired(s, es[0], u, retired));
    }
  }

  /** From the start, every careful run keeps at most one live node of `u` in every group, even though the
      lister may show any copy of any ManagedNode at any time, deletes may strike nodes that wait in the
      batch, and autoscaled nodes come and go. */
  lemma AtMostOneLiveNode(s: State, es: seq<Event>, u: string, a: Vm, b: Vm)
    requires Initial(s) && IsRun(s, es) && CarefulRun(s, es, u, false)
    requires Member(After(s, es).world, a) && Member(After(s, es).world, b)
    requires a.group == b.group && a.uid == b.uid == u
    ensures a.name == b.name
  {
    CarefulRunsAreGuarded(s, es, u, false);
    GuardedRunsKeepOneNode(s, es, u);
    assert Owned(After(s, es).world, a.group, a) && Owned(After(s, es).world, b.group, b);
  }

  /******* Control plane nodes *******/

  /** Node `vm`, pending or launched, is the only one under its name in its group. */
  predicate AloneUnderName(w: World, vm: Vm) {
    && vm.group in w.groups
    && var g := w.groups[vm.group];
       && (vm.name in g.pending || vm.name in g.nodes)
       && (vm.name in g.pending ==> g.pending[vm.name] == vm)
       && (vm.name in g.nodes ==> g.nodes[vm.name] == vm)
  }

  /** The step clears the group or removes it, launches the node without success or another one under its
      name, or gives its name to another node.  Deletes are not among them. */
  predicate Threatens(s: State, e: Event, vm: Vm) {
    match e
    case RemoveGroup(g) => g == vm.group
    case Clear(g, _) => g == vm.group
    case LaunchOne(x, launch) => x.group == vm.group && x.name == vm.name && (x != vm || launch.LaunchFailed?)
    case NodeEnters(x, _) => x.group == vm.group && x.name == vm.name
    case HandleKey(_, look) =>
      look.listed.Some? && look.listed.value.group == vm.group && look.added == Some(vm.name)
    case _ => false
  }

  predicate Unthreatened(s: State, es: seq<Event>, vm: Vm)
    requires IsRun(s, es)
    decreases |es|
  {
    es == [] || (!Threatens(s, es[0], vm) && Unthreatened(Next(s, es[0]), es[1..], vm))
  }

  lemma StepKeepsControlPlane(s: State, e: Event, vm: Vm)
    requires vm.controlPlane && AloneUnderName(s.world, vm) && Enabled(s, e) && !Threatens(s, e, vm)
    ensures AloneUnderName(Next(s, e).world, vm)
  {
  }

  /** A control plane node stays in its group along every such run, whichever deletes strike. */
  lemma {:induction false} ControlPlaneNodeStays(s: State, es: seq<Event>, vm: Vm)
    requires vm.controlPlane && AloneUnderName(s.world, vm) && IsRun(s, es) && Unthreatened(s, es, vm)
    ensures AloneUnderName(After(s, es).world, vm) && Member(After(s, es).world, vm)
    decreases |es|
  {
    if es != [] {
      StepKeepsControlPlane(s, es[0], vm);
      ControlPlaneNodeStays(Next(s, es[0]), es[1..], vm);
    }
  }

  /** So does one that a handling registers for a control plane ManagedNode, under a name no launched node has;
      any other node goes with the first delete. */
  lemma RegisteredControlPlaneNodeStays(s: State, key: string, look: Look, es: seq<Event>, vm: Vm)
    requires !s.starting && vm.controlPlane
    requires Adds(s.world, Handle(s.world, key, look).world, vm.name, vm.group, vm.uid, true)
    requires vm.name !in s.world.groups[vm.group].nodes
    requires var t := Next(s, HandleKey(key, look)); IsRun(t, es) && Unthreatened(t, es, vm)
    ensures Member(After(Next(s, HandleKey(key, look)), es).world, vm)
  {
    ControlPlaneNodeStays(Next(s, HandleKey(key, look)), es, vm);
  }

  lemma WorkerNodeGoes(s: State, vm: Vm)
    requires Enabled(s, Delete(vm))
    ensures Member(Next(s, Delete(vm)).world, vm) <==> vm.controlPlane
  {
  }

  /** What the store holds now, as the lister may go on showing it. */
  ghost function Items(w: World): set<(string, ManagedNode)> { set k | k in w.store :: (k, w.store[k]) }

  /** The lister shows only copies it may have: those the store held at some time. */
  ghost predicate Shown(e: Event, seen: set<(string, ManagedNode)>) {
    e.HandleKey? && e.look.listed.Some? ==> (e.key, e.look.listed.value) in seen
  }

  ghost predicate CachedRun(s: State, es: seq<Event>, past: set<(string, ManagedNode)>)
    requires IsRun(s, es)
    decreases |es|
  {
    var seen := past + Items(s.world);
    es == [] || (Shown(es[0], seen) && CachedRun(Next(s, es[0]), es[1..], seen))
  }

  ghost function Seen(s: State, es: seq<Event>, past: set<(string, ManagedNode)>): set<(string, ManagedNode)>
    requires IsRun(s, es)
    decreases |es|
  {
    var seen := past + Items(s.world);
    if es == [] then seen else Seen(Next(s, es[0]), es[1..], seen)
  }

  lemma {:induction false} ExtendCached(s: State, es: seq<Event>, e: Event, past: set<(string, ManagedNode)>)
    requires IsRun(s, es) && CachedRun(s, es, past) && Enabled(After(s, es), e) && Shown(e, Seen(s, es, past))
    ensures IsRun(s, es + [e]) && After(s, es + [e]) == Next(After(s, es), e)
    ensures CachedRun(s, es + [e], past)
    ensures Seen(s, es + [e], past) == Seen(s, es, past) + Items(After(s, es + [e]).world)
    decreases |es|
  {
    if es == [] {
      assert es + [e] == [e] && [e][1..] == [];
    } else {
      ExtendCached(Next(s, es[0]), es[1..], e, past + Items(s.world));
      assert (es + [e])[1..] == es[1..] + [e];
    }
  }

  /** A look under which a wanted ManagedNode is registered under `name`. */
  function Adding(mn: ManagedNode, name: string): Look {
    Look(Some(mn), Some(Machine(1, 1)), map[], Some([]), Some(name), false, true)
  }

  lemma AddingRegisters(w: World, key: string, mn: ManagedNode, name: string)
    requires mn.code.NeedToCreated? && mn.group in w.groups && !w.groups[mn.group].HasUid(mn.uid)
    ensures var vm := Vm(name, mn.group, mn.uid, false);
            var w' := Handle(w, key, Adding(mn, name)).world;
            var g := w.groups[mn.group];
            && w'.groups == w.groups[mn.group := Group(g.pending[name := vm], g.nodes)]
            && w'.BatchOf(mn.group) == w.BatchOf(mn.group) + [vm]
  {
  }

  const MN_A := ManagedNode("A", "g", NeedToCreated)
  const MN_B := ManagedNode("B", "g", NeedToCreated)

  /** Group `g` exists, and two ManagedNodes that want a node in it. */
  lemma Populated() returns (s: State, es: seq<Event>)
    ensures Initial(s) && IsRun(s, es) && CachedRun(s, es, {}) && !After(s, es).starting
    ensures After(s, es).world.groups == map["g" := Group(map[], map[])] && After(s, es).world.batch == map[]
    ensures ("a", MN_A) in Seen(s, es, {}) && ("b", MN_B) in Seen(s, es, {})
  {
    s, es := State(World(map[], map[], map[], map[], 0), false), [];
    ExtendCached(s, es, AddGroup("g"), {});
    es := es + [AddGroup("g")];
    ExtendCached(s, es, AddManagedNode("a", MN_A), {});
    es := es + [AddManagedNode("a", MN_A)];
    assert ("a", MN_A) in Items(After(s, es).world);
    ExtendCached(s, es, AddManagedNode("b", MN_B), {});
    es := es + [AddManagedNode("b", MN_B)];
    assert After(s, es).world.store["b"] == MN_B;
    assert ("b", MN_B) in Items(After(s, es).world);
  }

  /** Node `w1` of `A` is registered, and deleted while it waits in the batch. */
  lemma DeletedInBatch() returns (s: State, es: seq<Event>, a1: Vm)
    ensures Initial(s) && IsRun(s, es) && CachedRun(s, es, {}) && !After(s, es).starting
    ensures a1 == Vm("w1", "g", "A", false)
    ensures var w := After(s, es).world;
            "g" in w.groups && w.groups["g"] == Group(map[], map[]) && w.BatchOf("g") == [a1]
    ensures ("a", MN_A) in Seen(s, es, {}) && ("b", MN_B) in Seen(s, es, {})
  {
    s, es := Populated();
    a1 := Vm("w1", "g", "A", false);
    AddingRegisters(After(s, es).world, "a", MN_A, "w1");
    ExtendCached(s, es, HandleKey("a", Adding(MN_A, "w1")), {});
    es := es + [HandleKey("a", Adding(MN_A, "w1"))];
    assert After(s, es).world.BatchOf("g") == [a1];
    ExtendCached(s, es, Delete(a1), {});
    es := es + [Delete(a1)];
  }

  lemma DuplicateInBatch() returns (s: State, es: seq<Event>, a1: Vm, b1: Vm, a2: Vm)
    ensures Initial(s) && IsRun(s, es) && CachedRun(s, es, {}) && !After(s, es).starting
    ensures "g" in After(s, es).world.groups && After(s, es).world.BatchOf("g") == [a1, b1, a2]
    ensures a1.group == a2.group == "g" && a1.uid == a2.uid && a1.name != a2.name
  {
    b1, a2 := Vm("w1", "g", "B", false), Vm("w2", "g", "A", false);
    s, es, a1 := DeletedInBatch();
    AddingRegisters(After(s, es).world, "b", MN_B, "w1");
    ExtendCached(s, es, HandleKey("b", Adding(MN_B, "w1")), {});
    es := es + [HandleKey("b", Adding(MN_B, "w1"))];
    var w := After(s, es).world;
    assert w.BatchOf("g") == [a1, b1] && w.groups["g"] == Group(map["w1" := b1], map[]);
    AddingRegisters(w, "a", MN_A, "w2");
    ExtendCached(s, es, HandleKey("a", Adding(MN_A, "w2")), {});
    es := es + [HandleKey("a", Adding(MN_A, "w2"))];
    assert After(s, es).world.BatchOf("g") == [a1, b1] + [a2];
  }

  /** Without the guard two nodes of one ManagedNode can live, although the lister only ever shows
      copies the store held.  `A` is handled with an up-to-date look and gets `w1`.  A DeleteNodes call
      of the autoscaler, which finds pending nodes by name too (server/nodegroup.go 225-233, 831-839),
      deletes `w1` in the batch; the name goes to `B`.  `A` is handled again with the copy the store
      held before and gets `w2`.  Launching the deleted `w1` enters it again beside `w2`. */
  lemma DeleteInBatchCanDuplicate() returns (s: State, es: seq<Event>, a: Vm, b: Vm)
    ensures Initial(s) && IsRun(s, es) && CachedRun(s, es, {})
    ensures Member(After(s, es).world, a) && Member(After(s, es).world, b)
    ensures a.group == b.group && a.uid == b.uid && a.name != b.name
  {
    var b1: Vm;
    s, es, a, b1, b := DuplicateInBatch();
    var w := After(s, es).world;
    ExtendCached(s, es, StartBatch, {});
    es := es + [StartBatch];
    assert a == w.BatchOf("g")[0] && b == w.BatchOf("g")[2];
    ExtendCached(s, es, LaunchOne(a, Launched), {});
    es := es + [LaunchOne(a, Launched)];
    assert After(s, es).world.BatchOf("g") == w.BatchOf("g");
    ExtendCached(s, es, LaunchOne(b, Launched), {});
    es := es + [LaunchOne(b, Launched)];
  }
}
