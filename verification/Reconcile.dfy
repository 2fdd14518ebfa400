/**
 The state the ManagedNode controller (server/controller.go) works on, and one handling of a key
 as a function of that state.

 The lister may be stale: what it shows for the key is an input (`Look.listed`), independent of
 the API server's copy (`World.store`).  The other inputs of a handling are what the calls into
 other components return.  Statuses are reduced to their codes.
 */
module Reconcile {
  import opened Wrappers
  import opened Admission

  /** pkg/apis/nodemanager/register.go 33-41. */
  datatype Code =
    | NeedToCreated | Creation | Created | CreationFailed | Deletion | Deleted
    | GroupNotFound | NiceLimitReached | InstanceTypeNotRegistered

  datatype ManagedNode = ManagedNode(uid: string, group: string, code: Code)

  /** An `AutoScalerServerNode`. */
  datatype Vm = Vm(name: string, group: string, uid: string, controlPlane: bool)

  datatype Group = Group(pending: map<string, Vm>, nodes: map<string, Vm>) {
    /** `findNodeByCRDUID` finds something. */
    predicate HasUid(uid: string) {
      || (exists n :: n in pending && pending[n].uid == uid)
      || (exists n :: n in nodes && nodes[n].uid == uid)
    }

    function Without(name: string): Group {
      Group(pending - {name}, nodes - {name})
    }
  }

  /** `uidKeys` and `batch` are `managedNodesByUID` and `nodesInCreationByNodegroup`; `events`
      counts what `handleManagedNode` records. */
  datatype World = World(
    store: map<string, ManagedNode>, groups: map<string, Group>,
    uidKeys: map<string, string>, batch: map<string, seq<Vm>>, events: nat)
  {
    predicate Discovered() { groups != map[] }

    function BatchOf(g: string): seq<Vm> { if g in batch then batch[g] else [] }
  }

  /** The outside of one handling: the lister's copy, the registered machine, the node listing,
      the result of `addManagedNode` (the name it picked, or a failure) and whether the status
      update reaches the API server. */
  datatype Look = Look(
    listed: Option<ManagedNode>, machine: Option<Machine>, limits: map<string, int>,
    listing: Option<seq<Capacity>>, added: Option<string>, controlPlane: bool, updateOk: bool)

  predicate Wanting(c: Code) { c.NeedToCreated? || c.GroupNotFound? || c.NiceLimitReached? }

  predicate Admitted(look: Look)
    requires look.machine.Some?
  {
    look.listing.None? || Fits(look.limits, look.listing.value, look.machine.value)
  }

  datatype Decision = Keep | Become(code: Code) | Register(vm: Vm)

  /** What is decided for a ManagedNode that wants a node and has none. */
  function DecideWanted(look: Look, mn: ManagedNode): Decision {
    if look.machine.None? then Become(InstanceTypeNotRegistered)
    else if !Admitted(look) then Become(NiceLimitReached)
    else if look.added.Some? then Register(Vm(look.added.value, mn.group, mn.uid, look.controlPlane))
    else Become(CreationFailed)
  }

  /** What `handleManagedNode` decides for a listed ManagedNode. */
  function Decide(w: World, look: Look, mn: ManagedNode): Decision {
    if mn.group !in w.groups then
      Become(if w.Discovered() then CreationFailed else GroupNotFound)
    else if w.groups[mn.group].HasUid(mn.uid) then Keep
    else if Wanting(mn.code) then DecideWanted(look, mn)
    else if mn.code.Created? then Become(Deleted)
    else Keep
  }

  function NewCode(d: Decision, current: Code): Code {
    match d
    case Keep => current
    case Become(c) => c
    case Register(_) => Creation
  }

  /** `addManagedNode` is called and fails. */
  predicate AddFails(w: World, look: Look, mn: ManagedNode) {
    && mn.group in w.groups && !w.groups[mn.group].HasUid(mn.uid) && Wanting(mn.code)
    && look.machine.Some? && Admitted(look) && look.added.None?
  }

  predicate Attempts(w: World, look: Look, mn: ManagedNode) {
    Decide(w, look, mn).Register? || AddFails(w, look, mn)
  }

  function Registered(w: World, vm: Vm): World
    requires vm.group in w.groups
  {
    var g := w.groups[vm.group];
    w.(groups := w.groups[vm.group := g.(pending := g.pending[vm.name := vm])],
       batch := w.batch[vm.group := w.BatchOf(vm.group) + [vm]])
  }

  /** The events recorded, branch by branch as the source records them: for a missing group only when
      the code changes, at the limit only the first time, and in every other branch that decides
      something unconditionally (controller.go 959-964, 971-1051). */
  function Recorded(w: World, look: Look, mn: ManagedNode): nat {
    if mn.group !in w.groups then
      (if mn.code == (if w.Discovered() then CreationFailed else GroupNotFound) then 0 else 1)
    else if w.groups[mn.group].HasUid(mn.uid) then 0
    else if Wanting(mn.code) then
      (if look.machine.Some? && !Admitted(look) && mn.code.NiceLimitReached? then 0 else 1)
    else if mn.code.Created? then 1
    else 0
  }

  /** Writes the status when the code changes. */
  function WithCode(w: World, key: string, from: Code, to: Code, updateOk: bool): World {
    if from != to && updateOk && key in w.store then w.(store := w.store[key := w.store[key].(code := to)]) else w
  }

  datatype Outcome = Outcome(world: World, recycled: bool, failed: bool)

  /** The state after the decision for a listed ManagedNode was carried out. */
  function Settled(w: World, key: string, look: Look, mn: ManagedNode): World {
    var d := Decide(w, look, mn);
    var registered := if d.Register? then Registered(w, d.vm) else w;
    WithCode(registered, key, mn.code, NewCode(d, mn.code), look.updateOk).(events := w.events + Recorded(w, look, mn))
  }

  function Handle(w: World, key: string, look: Look): Outcome {
    match look.listed
    case None => Outcome(w, false, false)
    case Some(mn) =>
      var seen := w.(uidKeys := w.uidKeys[mn.uid := key]);
      var code := NewCode(Decide(seen, look, mn), mn.code);
      Outcome(
        Settled(seen, key, look, mn),
        code.GroupNotFound? || code.NiceLimitReached?,
        mn.group !in w.groups || AddFails(w, look, mn))
  }

  /** The key goes back to the queue. */
  predicate Requeued(w: World, key: string, look: Look) {
    Handle(w, key, look).recycled && Handle(w, key, look).failed
  }

  /** `deleteNode` through `findNodeByCRDUID`; a control plane node is never deleted. */
  function DeleteVm(w: World, vm: Vm): World {
    if vm.group in w.groups && !vm.controlPlane
    then w.(groups := w.groups[vm.group := w.groups[vm.group].Without(vm.name)])
    else w
  }

  /******* Launching and reporting a batch *******/

  /** `NotReady`: the group's status is not Created, and the node stays pending. */
  datatype Launch = Launched | LaunchFailed | NotReady

  /** What becomes of a node in `startManagedNodes`: its launch, its state afterwards, what the
      lister shows for its key, and whether the status update succeeds. */
  datatype Fate = Fate(launch: Launch, running: bool, listed: Option<ManagedNode>, updateOk: bool)

  /** `createNode` (server/nodegroup.go 447-488): a launched node is entered in `Nodes` whether or
      not it is still pending. */
  function LaunchVm(w: World, vm: Vm, launch: Launch): World {
    if vm.group !in w.groups || launch.NotReady? then w
    else
      var g := w.groups[vm.group];
      var nodes := if launch.Launched? then g.nodes[vm.name := vm] else g.nodes;
      w.(groups := w.groups[vm.group := Group(g.pending - {vm.name}, nodes)])
  }

  /** The status written for a node of the batch. */
  function ReportVm(w: World, vm: Vm, fate: Fate): World {
    if vm.uid !in w.uidKeys || fate.listed.None? then w
    else
      var key := w.uidKeys[vm.uid];
      var code := if fate.running then Created else CreationFailed;
      if fate.updateOk && key in w.store then w.(store := w.store[key := w.store[key].(code := code)]) else w
  }

  /******* One handling *******/

  /** A key is requeued iff its group lookup failed while no group was discovered yet.  A key at the
      resource limit, or whose creation failed, is not. */
  lemma RequeuedIff(w: World, key: string, look: Look)
    ensures Requeued(w, key, look) <==>
            look.listed.Some? && look.listed.value.group !in w.groups && !w.Discovered()
  {
  }

  /******* What a handling writes, case by case *******/

  /** The status becomes `code`, with one event, unless the lister shows it already. */
  predicate Writes(w: World, after: World, key: string, look: Look, code: Code) {
    var changes := look.listed.Some? && look.listed.value.code != code;
    && after.store == (if changes && look.updateOk && key in w.store
                       then w.store[key := ManagedNode(w.store[key].uid, w.store[key].group, code)] else w.store)
    && after.events == w.events + if changes then 1 else 0
  }

  /** No node is added. */
  predicate AddsNothing(w: World, after: World) { after.groups == w.groups && after.batch == w.batch }

  /** One node is added: pending under its name, and last in the batch of its group. */
  ghost predicate Adds(w: World, after: World, name: string, group: string, uid: string, controlPlane: bool) {
    var vm := Vm(name, group, uid, controlPlane);
    && group in w.groups && after.groups.Keys == w.groups.Keys
    && after.groups[group].nodes == w.groups[group].nodes
    && after.groups[group].pending == w.groups[group].pending[name := vm]
    && after.BatchOf(group) == w.BatchOf(group) + [vm]
    && forall h :: h != group ==>
         after.BatchOf(h) == w.BatchOf(h) && (h in w.groups ==> after.groups[h] == w.groups[h])
  }

  /** Some pending or launched node of the group carries the UID. */
  predicate HasNode(g: Group, uid: string) {
    || (exists vm :: vm in g.pending.Values && vm.uid == uid)
    || (exists vm :: vm in g.nodes.Values && vm.uid == uid)
  }

  lemma HasNodeIff(g: Group, uid: string)
    ensures HasNode(g, uid) <==> g.HasUid(uid)
  {
    if n :| n in g.pending && g.pending[n].uid == uid {
      assert g.pending[n] in g.pending.Values;
    }
    if n :| n in g.nodes && g.nodes[n].uid == uid {
      assert g.nodes[n] in g.nodes.Values;
    }
  }

  /** A key the lister does not show is left alone, and any other has its UID noted. */
  lemma HandledKey(w: World, key: string, look: Look)
    ensures var after := Handle(w, key, look).world;
            if look.listed.None? then after == w else after.uidKeys == w.uidKeys[look.listed.value.uid := key]
  {
  }

  lemma HandledWithoutGroup(w: World, key: string, look: Look)
    requires look.listed.Some? && look.listed.value.group !in w.groups
    ensures var r := Handle(w, key, look);
            && Writes(w, r.world, key, look, if |w.groups| == 0 then GroupNotFound else CreationFailed)
            && AddsNothing(w, r.world) && r.failed && (r.recycled <==> |w.groups| == 0)
  {
  }

  /** A ManagedNode that has a node keeps its status, whatever it is. */
  lemma HandledWithNode(w: World, key: string, look: Look)
    requires look.listed.Some? && look.listed.value.group in w.groups
    requires HasNode(w.groups[look.listed.value.group], look.listed.value.uid)
    ensures var r := Handle(w, key, look);
            && r.world.store == w.store && r.world.events == w.events && AddsNothing(w, r.world) && !r.failed
  {
    HasNodeIff(w.groups[look.listed.value.group], look.listed.value.uid);
  }

  /** A ManagedNode that has none and wants none: one that was created is found deleted. */
  lemma HandledUnwanted(w: World, key: string, look: Look)
    requires look.listed.Some? && look.listed.value.group in w.groups
    requires !HasNode(w.groups[look.listed.value.group], look.listed.value.uid)
    requires var shown := look.listed.value.code;
             !shown.NeedToCreated? && !shown.GroupNotFound? && !shown.NiceLimitReached?
    ensures var r, shown := Handle(w, key, look), look.listed.value.code;
            && Writes(w, r.world, key, look, if shown == Created then Deleted else shown)
            && AddsNothing(w, r.world) && !r.failed && !r.recycled
  {
    HasNodeIff(w.groups[look.listed.value.group], look.listed.value.uid);
  }

  /** A ManagedNode that wants a node: without a registered machine, over the limits, when no node can be
      added, and when one is. */
  lemma HandledWanting(w: World, key: string, look: Look)
    requires look.listed.Some? && look.listed.value.group in w.groups
    requires !HasNode(w.groups[look.listed.value.group], look.listed.value.uid)
    requires var shown := look.listed.value.code;
             shown.NeedToCreated? || shown.GroupNotFound? || shown.NiceLimitReached?
    ensures var r, mn := Handle(w, key, look), look.listed.value;
            var over := look.machine.Some? && look.listing.Some?
                        && !Fits(look.limits, look.listing.value, look.machine.value);
            var code := if look.machine.None? then InstanceTypeNotRegistered
                        else if over then NiceLimitReached
                        else if look.added.None? then CreationFailed
                        else Creation;
            && Writes(w, r.world, key, look, code)
            && (if code == Creation then Adds(w, r.world, look.added.value, mn.group, mn.uid, look.controlPlane)
                else AddsNothing(w, r.world))
            && (r.failed <==> look.machine.Some? && !over && look.added.None?)
            && (r.recycled <==> over)
  {
    HasNodeIff(w.groups[look.listed.value.group], look.listed.value.uid);
  }

  predicate CodeChanges(w: World, look: Look) {
    look.listed.Some? && var mn := look.listed.value; NewCode(Decide(w, look, mn), mn.code) != mn.code
  }

  /** The branches record one event iff the code changes, none otherwise. */
  lemma OneEventPerCodeChange(w: World, key: string, look: Look)
    ensures Handle(w, key, look).world.events == w.events + if CodeChanges(w, look) then 1 else 0
  {
  }

  /** The lister shows the API server's copy and the update succeeds. */
  predicate Fresh(w: World, key: string, look: Look) {
    look.updateOk && look.listed == if key in w.store then Some(w.store[key]) else None
  }

  lemma FreshChange(w: World, key: string, look: Look)
    requires Fresh(w, key, look)
    ensures var after := Handle(w, key, look).world;
            && after.store.Keys == w.store.Keys
            && (forall k :: k in w.store ==>
                  after.store[k].uid == w.store[k].uid && after.store[k].group == w.store[k].group)
            && (forall k :: k in w.store && k != key ==> after.store[k] == w.store[k])
            && (key in w.store ==> after.store[key].code == NewCode(Decide(w, look, w.store[key]), w.store[key].code))
            && after.events == w.events + if after.store != w.store then 1 else 0
  {
    if key in w.store {
      var mn := w.store[key];
      var code := NewCode(Decide(w, look, mn), mn.code);
      if code != mn.code {
        assert Handle(w, key, look).world.store[key].code != w.store[key].code;
      }
    }
  }

  /** The look of a second handling, in which nothing outside has changed. */
  function Again(once: World, key: string, look: Look): Look {
    look.(listed := if key in once.store then Some(once.store[key]) else None)
  }

  /** A ManagedNode just handled keeps its code; a node registered for it is found. */
  lemma DecidedAgain(w: World, key: string, look: Look)
    requires Fresh(w, key, look) && key in w.store
    ensures var once := Handle(w, key, look).world;
            && key in once.store
            && var d := Decide(once, Again(once, key, look), once.store[key]);
               !d.Register? && NewCode(d, once.store[key].code) == once.store[key].code
  {
    var mn := w.store[key];
    FreshChange(w, key, look);
    if Decide(w, look, mn).Register? {
      assert Handle(w, key, look).world.groups[mn.group].pending[Decide(w, look, mn).vm.name].uid == mn.uid;
    }
  }

  /** A handling that decides nothing new, of a UID already noted, changes nothing. */
  lemma NothingNewIsNoOp(w: World, key: string, look: Look)
    requires Fresh(w, key, look) && key in w.store
    requires var mn := w.store[key];
             && mn.uid in w.uidKeys && w.uidKeys[mn.uid] == key
             && var d := Decide(w, look, mn); !d.Register? && NewCode(d, mn.code) == mn.code
    ensures Handle(w, key, look).world == w
  {
    assert w.uidKeys[w.store[key].uid := key] == w.uidKeys;
    OneEventPerCodeChange(w, key, look);
  }

  /** Handling a key again, with everything outside as it was, changes nothing. */
  lemma SecondHandlingIsNoOp(w: World, key: string, look: Look)
    requires Fresh(w, key, look)
    ensures var once := Handle(w, key, look).world; Handle(once, key, Again(once, key, look)).world == once
  {
    if key in w.store {
      var once := Handle(w, key, look).world;
      FreshChange(w, key, look);
      DecidedAgain(w, key, look);
      NothingNewIsNoOp(once, key, Again(once, key, look));
    }
  }
}
