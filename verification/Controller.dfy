/**
 The worker of the ManagedNode controller (server/controller.go): handling one key, draining the
 queue, and starting the batch a drain leaves behind.

 The methods mutate the controller's fields as the source mutates its maps; each is proved
 against a function of the state (module `Reconcile` and the folds below), about which the laws
 are proved.
 */
module Controller {
  import opened Wrappers
  import opened Admission
  import opened Reconcile
  import opened WorkQueue

  /******* What a drain does, as a fold over its turns *******/

  /** One dequeued item, the deletes that informer callbacks ran before its handling, and what its
      handling saw. */
  datatype Turn = Turn(item: Item, deletes: seq<Vm>, look: Look)

  function DeleteAll(w: World, vms: seq<Vm>): World {
    if vms == [] then w else DeleteVm(DeleteAll(w, vms[..|vms| - 1]), vms[|vms| - 1])
  }

  function PlayTurn(w: World, t: Turn): World {
    var before := DeleteAll(w, t.deletes);
    if t.item.Key? then Handle(before, t.item.key, t.look).world else before
  }

  predicate TurnRequeues(w: World, t: Turn) {
    t.item.Key? && Requeued(DeleteAll(w, t.deletes), t.item.key, t.look)
  }

  function Play(w: World, turns: seq<Turn>): World {
    if turns == [] then w else PlayTurn(Play(w, turns[..|turns| - 1]), turns[|turns| - 1])
  }

  function RequeuedItems(w: World, turns: seq<Turn>): seq<Item> {
    if turns == [] then []
    else
      var n := |turns| - 1;
      RequeuedItems(w, turns[..n]) + if TurnRequeues(Play(w, turns[..n]), turns[n]) then [turns[n].item] else []
  }

  /** The queue calls of the loop: each item is got once and finished once, and in between
      forgotten unless it is requeued. */
  function LoopCalls(w: World, turns: seq<Turn>): seq<Call> {
    if turns == [] then []
    else
      var n := |turns| - 1;
      LoopCalls(w, turns[..n]) + TurnCalls(turns[n].item, TurnRequeues(Play(w, turns[..n]), turns[n]))
  }

  function TurnCalls(item: Item, requeued: bool): seq<Call> {
    [Got(item)] + (if requeued then [] else [Forgot(item)]) + [Finished(item)]
  }

  lemma TurnCounts(item: Item, requeued: bool, x: Item)
    ensures var calls, one := TurnCalls(item, requeued), if item == x then 1 else 0;
            && Count(calls, Got(x)) == Count(calls, Finished(x)) == one
            && Count(calls, Forgot(x)) == (if requeued then 0 else one)
            && Count(calls, Deferred(x)) == 0
            && Count([item], x) == one
  {
    assert [item][..0] == [];
    forall c: Call ensures Count([c], c) == 1 && forall d: Call :: d != c ==> Count([c], d) == 0 {
      assert [c][..0] == [];
    }
    var middle := if requeued then [] else [Forgot(item)];
    forall c: Call
      ensures Count(TurnCalls(item, requeued), c) ==
              Count([Got(item)], c) + Count(middle, c) + Count([Finished(item)], c)
    {
      CountConcat([Got(item)], middle, c);
      CountConcat([Got(item)] + middle, [Finished(item)], c);
    }
  }

  function Deferrals(items: seq<Item>): seq<Call> {
    if items == [] then [] else Deferrals(items[..|items| - 1]) + [Deferred(items[|items| - 1])]
  }

  lemma ConcatAssociates<T>(a: seq<T>, b: seq<T>, c: seq<T>)
    ensures (a + b) + c == a + (b + c)
  {
  }

  lemma PlaySnoc(w: World, turns: seq<Turn>, t: Turn)
    ensures Play(w, turns + [t]) == PlayTurn(Play(w, turns), t)
    ensures RequeuedItems(w, turns + [t]) ==
            RequeuedItems(w, turns) + if TurnRequeues(Play(w, turns), t) then [t.item] else []
    ensures LoopCalls(w, turns + [t]) == LoopCalls(w, turns) + TurnCalls(t.item, TurnRequeues(Play(w, turns), t))
  {
    assert (turns + [t])[..|turns|] == turns;
  }

  /** After these turns the state is as played, these items are requeued, and these are the queue calls. */
  ghost predicate Played(
    start: World, calls: seq<Call>, turns: seq<Turn>, view: World, requeued: seq<Item>, log: seq<Call>)
  {
    && view == Play(start, turns)
    && requeued == RequeuedItems(start, turns)
    && log == calls + LoopCalls(start, turns)
  }

  lemma PlayedSnoc(
    start: World, calls: seq<Call>, turns: seq<Turn>, view: World, requeued: seq<Item>, log: seq<Call>, t: Turn)
    requires Played(start, calls, turns, view, requeued, log)
    ensures var again := TurnRequeues(view, t);
            Played(start, calls, turns + [t], PlayTurn(view, t), requeued + (if again then [t.item] else []),
                   log + TurnCalls(t.item, again))
  {
    PlaySnoc(start, turns, t);
    ConcatAssociates(calls, LoopCalls(start, turns), TurnCalls(t.item, TurnRequeues(view, t)));
  }

  function Emptied(w: World): World { w.(batch := map[], uidKeys := map[]) }

  function Count<T(==)>(xs: seq<T>, x: T): nat {
    if xs == [] then 0 else Count(xs[..|xs| - 1], x) + if xs[|xs| - 1] == x then 1 else 0
  }

  lemma {:induction false} CountConcat<T>(a: seq<T>, b: seq<T>, x: T)
    ensures Count(a + b, x) == Count(a, x) + Count(b, x)
  {
    if b == [] {
      assert a + b == a;
    } else {
      CountConcat(a, b[..|b| - 1], x);
      assert (a + b)[..|a + b| - 1] == a + b[..|b| - 1];
    }
  }

  /** Every dequeue is finished exactly once, and is either forgotten or requeued, never both. */
  lemma {:induction false} FinishedOnceForgottenOrRequeued(w: World, turns: seq<Turn>, x: Item)
    ensures Count(LoopCalls(w, turns), Finished(x)) == Count(LoopCalls(w, turns), Got(x))
    ensures Count(LoopCalls(w, turns), Forgot(x)) + Count(RequeuedItems(w, turns), x) ==
            Count(LoopCalls(w, turns), Got(x))
    ensures Count(LoopCalls(w, turns), Deferred(x)) == 0
  {
    if turns != [] {
      var n := |turns| - 1;
      FinishedOnceForgottenOrRequeued(w, turns[..n], x);
      var item, requeued := turns[n].item, TurnRequeues(Play(w, turns[..n]), turns[n]);
      TurnCounts(item, requeued, x);
      forall c: Call
        ensures Count(LoopCalls(w, turns), c) ==
                Count(LoopCalls(w, turns[..n]), c) + Count(TurnCalls(item, requeued), c)
      {
        CountConcat(LoopCalls(w, turns[..n]), TurnCalls(item, requeued), c);
      }
      CountConcat(RequeuedItems(w, turns[..n]), if requeued then [item] else [], x);
    }
  }

  /** An item is requeued by its turn iff it is the key of a ManagedNode whose group does not exist
      while no group is discovered. */
  lemma TurnRequeuesIff(w: World, t: Turn)
    ensures TurnRequeues(w, t) <==>
            var before := DeleteAll(w, t.deletes);
            t.item.Key? && t.look.listed.Some? && t.look.listed.value.group !in before.groups && !before.Discovered()
  {
  }

  /******* The batch *******/

  /** Every node handed over belongs to the group it is filed under, and its UID has a key. */
  predicate BatchOk(w: World) {
    forall g :: g in w.batch ==>
      && w.batch[g] != []
      && forall i :: 0 <= i < |w.batch[g]| ==> w.batch[g][i].group == g && w.batch[g][i].uid in w.uidKeys
  }

  lemma HandleKeepsBatchOk(w: World, key: string, look: Look)
    requires BatchOk(w)
    ensures BatchOk(Handle(w, key, look).world)
  {
  }

  lemma {:induction false} DeletesKeepBatch(w: World, vms: seq<Vm>)
    ensures DeleteAll(w, vms).batch == w.batch && DeleteAll(w, vms).uidKeys == w.uidKeys
    ensures DeleteAll(w, vms).groups.Keys == w.groups.Keys
  {
    if vms != [] {
      DeletesKeepBatch(w, vms[..|vms| - 1]);
    }
  }

  /** After any drain, whatever the lister showed and whichever deletes interleaved. */
  lemma {:induction false} DrainLeavesBatchOk(w: World, turns: seq<Turn>)
    ensures BatchOk(Play(Emptied(w), turns))
  {
    if turns != [] {
      var before := Play(Emptied(w), turns[..|turns| - 1]);
      var t := turns[|turns| - 1];
      DrainLeavesBatchOk(w, turns[..|turns| - 1]);
      DeletesKeepBatch(before, t.deletes);
      if t.item.Key? {
        HandleKeepsBatchOk(DeleteAll(before, t.deletes), t.item.key, t.look);
      }
    }
  }

  function LaunchAll(w: World, vms: seq<Vm>, fates: Vm -> Fate): (r: World)
    ensures r.batch == w.batch && r.uidKeys == w.uidKeys && r.groups.Keys == w.groups.Keys
  {
    if vms == [] then w
    else
      var last := vms[|vms| - 1];
      LaunchVm(LaunchAll(w, vms[..|vms| - 1], fates), last, fates(last).launch)
  }

  function ReportAll(w: World, vms: seq<Vm>, fates: Vm -> Fate): (r: World)
    ensures r.batch == w.batch && r.uidKeys == w.uidKeys && r.groups == w.groups
  {
    if vms == [] then w
    else
      var last := vms[|vms| - 1];
      ReportVm(ReportAll(w, vms[..|vms| - 1], fates), last, fates(last))
  }

  function StartGroup(w: World, g: string, fates: Vm -> Fate): (r: World)
    ensures r.batch == w.batch && r.uidKeys == w.uidKeys && r.groups.Keys == w.groups.Keys
  {
    if g in w.groups then ReportAll(LaunchAll(w, w.BatchOf(g), fates), w.BatchOf(g), fates) else w
  }

  function StartAll(w: World, order: seq<string>, fates: Vm -> Fate): (r: World)
    ensures r.batch == w.batch && r.uidKeys == w.uidKeys && r.groups.Keys == w.groups.Keys
  {
    if order == [] then w
    else StartGroup(StartAll(w, order[..|order| - 1], fates), order[|order| - 1], fates)
  }

  /******* What starting a batch does *******/

  predicate NamedIn(vms: seq<Vm>, fates: Vm -> Fate, launch: Launch, name: string) {
    exists i :: 0 <= i < |vms| && vms[i].name == name && fates(vms[i]).launch == launch
  }

  /** The last node of its name in the list that is launched with success. */
  predicate LastLaunched(vms: seq<Vm>, fates: Vm -> Fate, i: nat) {
    && i < |vms| && fates(vms[i]).launch == Launched
    && forall j :: i < j < |vms| && vms[j].name == vms[i].name ==> fates(vms[j]).launch != Launched
  }

  /** What becomes of a name when the nodes of a list are launched: it is pending as before unless a launch
      ended, well or badly; it belongs to the node launched last with success, or to whom it did before. */
  ghost predicate NameLaunched(before: Group, after: Group, vms: seq<Vm>, fates: Vm -> Fate, name: string) {
    var launched, failed := NamedIn(vms, fates, Launched, name), NamedIn(vms, fates, LaunchFailed, name);
    && (name in after.pending <==> name in before.pending && !launched && !failed)
    && (name in after.pending ==> after.pending[name] == before.pending[name])
    && (name in after.nodes <==> name in before.nodes || launched)
    && (name in after.nodes && !launched ==> after.nodes[name] == before.nodes[name])
    && forall i: nat :: LastLaunched(vms, fates, i) && vms[i].name == name ==> after.nodes[name] == vms[i]
  }

  ghost predicate GroupLaunched(before: Group, after: Group, vms: seq<Vm>, fates: Vm -> Fate) {
    forall name :: NameLaunched(before, after, vms, fates, name)
  }

  lemma NamedInSnoc(vms: seq<Vm>, fates: Vm -> Fate, launch: Launch, name: string)
    requires vms != []
    ensures var last := vms[|vms| - 1];
            NamedIn(vms, fates, launch, name) <==>
            NamedIn(vms[..|vms| - 1], fates, launch, name) || (last.name == name && fates(last).launch == launch)
  {
    if i :| 0 <= i < |vms| && vms[i].name == name && fates(vms[i]).launch == launch && i < |vms| - 1 {
      assert vms[..|vms| - 1][i] == vms[i];
    }
  }

  lemma LastLaunchedSnoc(vms: seq<Vm>, fates: Vm -> Fate, i: nat)
    requires i < |vms|
    ensures var last := vms[|vms| - 1];
            LastLaunched(vms, fates, i) <==>
            if i == |vms| - 1 then fates(last).launch == Launched
            else
              && LastLaunched(vms[..|vms| - 1], fates, i)
              && (last.name == vms[i].name ==> fates(last).launch != Launched)
  {
    var front := vms[..|vms| - 1];
    assert forall j :: 0 <= j < |front| ==> front[j] == vms[j];
  }

  /** The nodes of one group. */
  predicate AllOf(vms: seq<Vm>, g: string) { forall i :: 0 <= i < |vms| ==> vms[i].group == g }

  /** The entry under a name, pending or launched, is what it was. */
  predicate SameEntry(before: map<string, Vm>, after: map<string, Vm>, name: string) {
    (name in after <==> name in before) && (name in before ==> after[name] == before[name])
  }

  /** A node of another name, or one whose launch did not end, changes nothing for a name. */
  lemma OtherLaunch(vms: seq<Vm>, fates: Vm -> Fate, name: string, before: Group, after: Group)
    requires vms != []
    requires var last := vms[|vms| - 1]; last.name != name || fates(last).launch == NotReady
    requires NameLaunched(before, after, vms[..|vms| - 1], fates, name)
    ensures NameLaunched(before, after, vms, fates, name)
  {
    NamedInSnoc(vms, fates, Launched, name);
    NamedInSnoc(vms, fates, LaunchFailed, name);
    forall i: nat | LastLaunched(vms, fates, i) && vms[i].name == name ensures after.nodes[name] == vms[i] {
      LastLaunchedSnoc(vms, fates, i);
    }
  }

  lemma FailedLaunch(vms: seq<Vm>, fates: Vm -> Fate, name: string, before: Group, mid: Group, after: Group)
    requires vms != [] && vms[|vms| - 1].name == name && fates(vms[|vms| - 1]).launch == LaunchFailed
    requires NameLaunched(before, mid, vms[..|vms| - 1], fates, name)
    requires name !in after.pending && SameEntry(mid.nodes, after.nodes, name)
    ensures NameLaunched(before, after, vms, fates, name)
  {
    NamedInSnoc(vms, fates, Launched, name);
    NamedInSnoc(vms, fates, LaunchFailed, name);
    forall i: nat | LastLaunched(vms, fates, i) && vms[i].name == name ensures after.nodes[name] == vms[i] {
      LastLaunchedSnoc(vms, fates, i);
    }
  }

  lemma SuccessfulLaunch(vms: seq<Vm>, fates: Vm -> Fate, name: string, before: Group, after: Group)
    requires vms != [] && vms[|vms| - 1].name == name && fates(vms[|vms| - 1]).launch == Launched
    requires name !in after.pending && name in after.nodes && after.nodes[name] == vms[|vms| - 1]
    ensures NameLaunched(before, after, vms, fates, name)
  {
    NamedInSnoc(vms, fates, Launched, name);
    forall i: nat | LastLaunched(vms, fates, i) && vms[i].name == name ensures after.nodes[name] == vms[i] {
      LastLaunchedSnoc(vms, fates, i);
    }
  }

  lemma SameName(before: Group, mid: Group, after: Group, vms: seq<Vm>, fates: Vm -> Fate, name: string)
    requires NameLaunched(before, mid, vms, fates, name)
    requires SameEntry(mid.nodes, after.nodes, name) && SameEntry(mid.pending, after.pending, name)
    ensures NameLaunched(before, after, vms, fates, name)
  {
  }

  lemma NameLaunchedSnoc(w: World, mid: World, g: string, vms: seq<Vm>, fates: Vm -> Fate, name: string)
    requires vms != [] && AllOf(vms, g) && g in w.groups && g in mid.groups
    requires NameLaunched(w.groups[g], mid.groups[g], vms[..|vms| - 1], fates, name)
    ensures var last := vms[|vms| - 1];
            NameLaunched(w.groups[g], LaunchVm(mid, last, fates(last).launch).groups[g], vms, fates, name)
  {
    var last := vms[|vms| - 1];
    var before, after := w.groups[g], LaunchVm(mid, last, fates(last).launch).groups[g];
    if last.name != name || fates(last).launch == NotReady {
      SameName(before, mid.groups[g], after, vms[..|vms| - 1], fates, name);
      OtherLaunch(vms, fates, name, before, after);
    } else if fates(last).launch == LaunchFailed {
      FailedLaunch(vms, fates, name, before, mid.groups[g], after);
    } else {
      SuccessfulLaunch(vms, fates, name, before, after);
    }
  }

  /** Launching the nodes of a group changes no other group. */
  lemma {:induction false} LaunchAllLaunches(w: World, g: string, vms: seq<Vm>, fates: Vm -> Fate)
    requires AllOf(vms, g) && g in w.groups
    ensures GroupLaunched(w.groups[g], LaunchAll(w, vms, fates).groups[g], vms, fates)
    ensures LaunchAll(w, vms, fates) == w.(groups := LaunchAll(w, vms, fates).groups)
    ensures forall h :: h in w.groups && h != g ==> LaunchAll(w, vms, fates).groups[h] == w.groups[h]
  {
    if vms != [] {
      var front := vms[..|vms| - 1];
      LaunchAllLaunches(w, g, front, fates);
      forall name ensures NameLaunched(w.groups[g], LaunchAll(w, vms, fates).groups[g], vms, fates, name) {
        assert NameLaunched(w.groups[g], LaunchAll(w, front, fates).groups[g], front, fates, name);
        NameLaunchedSnoc(w, LaunchAll(w, front, fates), g, vms, fates, name);
      }
    }
  }

  /** The report of the node reaches the ManagedNode under `key`. */
  predicate Tells(w: World, b: Vm, fates: Vm -> Fate, key: string) {
    b.uid in w.uidKeys && w.uidKeys[b.uid] == key && fates(b).listed.Some? && fates(b).updateOk
  }

  /** A ManagedNode changes its code only, and only to what one of the nodes that report to it says. */
  ghost predicate KeyReported(w: World, after: World, nodes: set<Vm>, fates: Vm -> Fate, key: string)
    requires key in w.store
  {
    && key in after.store
    && after.store[key].uid == w.store[key].uid && after.store[key].group == w.store[key].group
    && if exists b :: b in nodes && Tells(w, b, fates, key)
       then exists b :: b in nodes && Tells(w, b, fates, key) &&
                        after.store[key].code == if fates(b).running then Created else CreationFailed
       else after.store[key].code == w.store[key].code
  }

  ghost predicate AllReported(w: World, after: World, nodes: set<Vm>, fates: Vm -> Fate) {
    after.store.Keys == w.store.Keys && forall key :: key in w.store ==> KeyReported(w, after, nodes, fates, key)
  }

  /** Reports one after the other, with launches between them. */
  lemma ReportedTwice(w: World, mid: World, after: World, a: set<Vm>, b: set<Vm>, fates: Vm -> Fate)
    requires mid.uidKeys == w.uidKeys && AllReported(w, mid, a, fates) && AllReported(mid, after, b, fates)
    ensures AllReported(w, after, a + b, fates)
  {
    forall key | key in w.store ensures KeyReported(w, after, a + b, fates, key) {
      assert KeyReported(w, mid, a, fates, key) && KeyReported(mid, after, b, fates, key);
      assert forall v :: Tells(mid, v, fates, key) <==> Tells(w, v, fates, key);
      if v :| v in b && Tells(w, v, fates, key) {
        assert v in a + b;
      } else if v :| v in a && Tells(w, v, fates, key) {
        assert v in a + b;
      }
    }
  }

  lemma OneReported(w: World, b: Vm, fates: Vm -> Fate)
    ensures AllReported(w, ReportVm(w, b, fates(b)), {b}, fates)
  {
    var after := ReportVm(w, b, fates(b));
    forall key | key in w.store ensures KeyReported(w, after, {b}, fates, key) {
      if Tells(w, b, fates, key) {
        assert b in {b};
      }
    }
  }

  ghost function NodesOf(vms: seq<Vm>): set<Vm> { set b | b in vms }

  lemma {:induction false} ReportAllReports(w: World, vms: seq<Vm>, fates: Vm -> Fate)
    ensures AllReported(w, ReportAll(w, vms, fates), NodesOf(vms), fates)
    ensures ReportAll(w, vms, fates) == w.(store := ReportAll(w, vms, fates).store)
  {
    if vms != [] {
      var front, last := vms[..|vms| - 1], vms[|vms| - 1];
      var mid := ReportAll(w, front, fates);
      ReportAllReports(w, front, fates);
      OneReported(mid, last, fates);
      ReportedTwice(w, mid, ReportAll(w, vms, fates), NodesOf(front), {last}, fates);
      assert vms == front + [last];
      assert NodesOf(vms) == NodesOf(front) + {last};
    }
  }

  /** The batch nodes of the groups that exist among these. */
  ghost function NodesIn(w: World, gs: seq<string>): set<Vm> {
    set g, b | g in gs && g in w.groups && b in w.BatchOf(g) :: b
  }

  /** Each of these groups that exists is launched, every node of these groups reported, and all else is as
      it was. */
  ghost predicate GroupsStarted(w: World, after: World, gs: seq<string>, fates: Vm -> Fate) {
    && after.groups.Keys == w.groups.Keys
    && (forall g :: g in w.groups ==>
          if g in gs then GroupLaunched(w.groups[g], after.groups[g], w.BatchOf(g), fates)
          else after.groups[g] == w.groups[g])
    && AllReported(w, after, NodesIn(w, gs), fates)
    && after.batch == w.batch && after.uidKeys == w.uidKeys && after.events == w.events
  }

  lemma OneGroupStarted(w: World, g: string, fates: Vm -> Fate)
    requires AllOf(w.BatchOf(g), g)
    ensures GroupsStarted(w, StartGroup(w, g, fates), [g], fates)
  {
    if g in w.groups {
      var vms := w.BatchOf(g);
      var launched := LaunchAll(w, vms, fates);
      LaunchAllLaunches(w, g, vms, fates);
      ReportAllReports(launched, vms, fates);
      assert AllReported(w, launched, {}, fates);
      ReportedTwice(w, launched, StartGroup(w, g, fates), {}, NodesOf(vms), fates);
      assert {} + NodesOf(vms) == NodesIn(w, [g]);
    } else {
      assert NodesIn(w, [g]) == {};
    }
  }

  lemma NodesInSnoc(w: World, mid: World, gs: seq<string>, g: string)
    requires mid.groups.Keys == w.groups.Keys && mid.batch == w.batch
    ensures NodesIn(w, gs + [g]) == NodesIn(w, gs) + NodesIn(mid, [g])
  {
    assert forall h :: mid.BatchOf(h) == w.BatchOf(h) && (h in mid.groups <==> h in w.groups);
  }

  lemma MoreGroupsStarted(w: World, mid: World, after: World, gs: seq<string>, g: string, fates: Vm -> Fate)
    requires GroupsStarted(w, mid, gs, fates) && GroupsStarted(mid, after, [g], fates) && g !in gs
    ensures GroupsStarted(w, after, gs + [g], fates)
  {
    ReportedTwice(w, mid, after, NodesIn(w, gs), NodesIn(mid, [g]), fates);
    NodesInSnoc(w, mid, gs, g);
    assert mid.BatchOf(g) == w.BatchOf(g);
  }

  lemma {:induction false} OrderStarted(w: World, order: seq<string>, fates: Vm -> Fate)
    requires BatchOk(w) && Distinct(order)
    ensures GroupsStarted(w, StartAll(w, order, fates), order, fates)
  {
    if order == [] {
      assert NodesIn(w, order) == {};
    } else {
      var front, g := order[..|order| - 1], order[|order| - 1];
      var mid := StartAll(w, front, fates);
      OrderStarted(w, front, fates);
      OneGroupStarted(mid, g, fates);
      MoreGroupsStarted(w, mid, StartAll(w, order, fates), front, g, fates);
      assert order == front + [g];
    }
  }

  predicate Distinct(order: seq<string>) { forall i, j :: 0 <= i < j < |order| ==> order[i] != order[j] }

  lemma OrderMeaning(order: seq<string>, keys: set<string>)
    requires multiset(order) == multiset(keys)
    ensures Distinct(order) && forall i :: 0 <= i < |order| ==> order[i] in keys
  {
    forall i | 0 <= i < |order| ensures order[i] in keys {
      assert order[i] in multiset(order);
    }
    forall i, j | 0 <= i < j < |order| ensures order[i] != order[j] {
      if order[i] == order[j] {
        CountedTwice(order, i, j);
      }
    }
  }

  lemma CountedTwice(order: seq<string>, i: nat, j: nat)
    requires i < j < |order| && order[i] == order[j]
    ensures multiset(order)[order[i]] >= 2
  {
    assert order == order[..j] + order[j..] && order[i] in order[..j] && order[j] in order[j..];
  }

  /** The whole batch was started: the launches of every group and the reports of its nodes took effect, and
      all else is as it was. */
  ghost predicate BatchStarted(w: World, after: World, fates: Vm -> Fate) {
    && after.groups.Keys == w.groups.Keys
    && (forall g :: g in w.groups ==> GroupLaunched(w.groups[g], after.groups[g], w.BatchOf(g), fates))
    && AllReported(w, after, set g, b | g in w.groups && b in w.BatchOf(g) :: b, fates)
    && after.batch == w.batch && after.uidKeys == w.uidKeys && after.events == w.events
  }

  lemma StartAllStarts(w: World, order: seq<string>, fates: Vm -> Fate)
    requires BatchOk(w) && multiset(order) == multiset(w.batch.Keys)
    ensures BatchStarted(w, StartAll(w, order, fates), fates)
  {
    OrderMeaning(order, w.batch.Keys);
    OrderStarted(w, order, fates);
    AllInOrder(w, order);
    assert NodesIn(w, order) == set g, b | g in w.groups && b in w.BatchOf(g) :: b;
    var after := StartAll(w, order, fates);
    forall g | g in w.groups ensures GroupLaunched(w.groups[g], after.groups[g], w.BatchOf(g), fates) {
      if g !in order {
        assert w.BatchOf(g) == [];
      }
    }
  }

  lemma AllInOrder(w: World, order: seq<string>)
    requires multiset(order) == multiset(w.batch.Keys)
    ensures forall g :: w.BatchOf(g) != [] ==> g in order
  {
    forall g | g in w.batch ensures g in order {
      assert g in multiset(w.batch.Keys) && g in multiset(order);
    }
  }

  predicate DistinctNames(vms: seq<Vm>) { forall i, j :: 0 <= i < j < |vms| ==> vms[i].name != vms[j].name }

  /** So of nodes with distinct names each that was launched is in `nodes` and not pending, one that failed is
      pending no more, and one whose group was not ready stays where it was, as do all other nodes. */
  lemma StartedNode(w: World, after: World, fates: Vm -> Fate, g: string, name: string)
    requires BatchStarted(w, after, fates) && g in w.groups && DistinctNames(w.BatchOf(g))
    ensures forall i :: 0 <= i < |w.BatchOf(g)| && w.BatchOf(g)[i].name == name ==>
              match fates(w.BatchOf(g)[i]).launch
              case Launched =>
                && name !in after.groups[g].pending
                && name in after.groups[g].nodes && after.groups[g].nodes[name] == w.BatchOf(g)[i]
              case LaunchFailed =>
                && name !in after.groups[g].pending
                && SameEntry(w.groups[g].nodes, after.groups[g].nodes, name)
              case NotReady =>
                && SameEntry(w.groups[g].pending, after.groups[g].pending, name)
                && SameEntry(w.groups[g].nodes, after.groups[g].nodes, name)
    ensures (forall i :: 0 <= i < |w.BatchOf(g)| ==> w.BatchOf(g)[i].name != name) ==>
              && SameEntry(w.groups[g].pending, after.groups[g].pending, name)
              && SameEntry(w.groups[g].nodes, after.groups[g].nodes, name)
  {
    var vms := w.BatchOf(g);
    assert NameLaunched(w.groups[g], after.groups[g], vms, fates, name);
    assert forall i: nat :: i < |vms| && vms[i].name == name && fates(vms[i]).launch == Launched ==>
             LastLaunched(vms, fates, i);
  }

  /** And a ManagedNode to which just one node reports is Created if that node runs, CreationFailed if not. */
  lemma StartedKey(w: World, after: World, fates: Vm -> Fate, key: string, g: string, b: Vm)
    requires BatchStarted(w, after, fates) && key in w.store
    requires g in w.groups && b in w.BatchOf(g) && Tells(w, b, fates, key)
    requires forall h, c :: h in w.groups && c in w.BatchOf(h) && Tells(w, c, fates, key) ==> c == b
    ensures key in after.store
    ensures after.store[key] == w.store[key].(code := if fates(b).running then Created else CreationFailed)
  {
    assert KeyReported(w, after, set h, c | h in w.groups && c in w.BatchOf(h) :: c, fates, key);
  }

  /** One to which none reports keeps its status. */
  lemma UnreportedKey(w: World, after: World, fates: Vm -> Fate, key: string)
    requires BatchStarted(w, after, fates) && key in w.store
    requires forall h, c :: h in w.groups && c in w.BatchOf(h) ==> !Tells(w, c, fates, key)
    ensures key in after.store && after.store[key] == w.store[key]
  {
    assert KeyReported(w, after, set h, c | h in w.groups && c in w.BatchOf(h) :: c, fates, key);
  }

  /** The item got a turn. */
  predicate Served(turns: seq<Turn>, x: Item) {
    exists n :: 0 <= n < |turns| && turns[n].item == x
  }

  /** Nothing that was queued or arrived is lost: it is dirty still or got a turn. */
  predicate NothingLost(turns: seq<Turn>, dirty: set<Item>, queued: set<Item>, arrivals: seq<seq<Item>>) {
    && (forall x :: x in queued ==> x in dirty || Served(turns, x))
    && (forall n, i :: 0 <= n < |turns| && n < |arrivals| && 0 <= i < |arrivals[n]| ==>
          arrivals[n][i] in dirty || Served(turns, arrivals[n][i]))
  }

  /** What arrives before the queue shuts down. */
  function Accepted(arrivals: seq<seq<Item>>, shuttingDown: bool, shutDownAt: nat): seq<seq<Item>> {
    if shuttingDown then [] else if shutDownAt < |arrivals| then arrivals[..shutDownAt] else arrivals
  }

  lemma NothingLostSnoc(
    turns: seq<Turn>, t: Turn, dirty: set<Item>, after: set<Item>, queued: set<Item>, arrivals: seq<seq<Item>>)
    requires NothingLost(turns, dirty, queued, arrivals)
    requires dirty - {t.item} <= after
    requires |turns| < |arrivals| ==> forall i :: 0 <= i < |arrivals[|turns|]| ==> arrivals[|turns|][i] in after
    ensures NothingLost(turns + [t], after, queued, arrivals)
  {
    forall x ensures Served(turns + [t], x) <==> Served(turns, x) || t.item == x {
      ServedSnoc(turns, t, x);
    }
  }

  predicate SawInputs(turns: seq<Turn>, looks: nat -> Look, deletes: nat -> seq<Vm>) {
    forall n :: 0 <= n < |turns| ==> turns[n].look == looks(n) && turns[n].deletes == deletes(n)
  }

  lemma SawInputsSnoc(turns: seq<Turn>, t: Turn, looks: nat -> Look, deletes: nat -> seq<Vm>)
    requires SawInputs(turns, looks, deletes) && t.look == looks(|turns|) && t.deletes == deletes(|turns|)
    ensures SawInputs(turns + [t], looks, deletes)
  {
  }

  lemma ServedSnoc(turns: seq<Turn>, t: Turn, x: Item)
    ensures Served(turns + [t], x) <==> Served(turns, x) || t.item == x
  {
    assert (turns + [t])[|turns|] == t;
    if n :| 0 <= n < |turns| && turns[n].item == x { assert (turns + [t])[n].item == x; }
  }

  /******* The controller *******/

  /** How many items may still arrive from turn `n` on. */
  function Remaining(arrivals: seq<seq<Item>>, n: nat): nat
    decreases |arrivals| - n
  {
    if n >= |arrivals| then 0 else |arrivals[n]| + Remaining(arrivals, n + 1)
  }

  lemma OneMoreDone(order: seq<string>, keys: set<string>, left: set<string>, g: string)
    requires g in left && left <= keys && multiset(order) == multiset(keys - left)
    ensures multiset(order + [g]) == multiset(keys - (left - {g}))
  {
    assert keys - (left - {g}) == keys - left + {g};
  }

  class Controller {
    var store: map<string, ManagedNode>
    var groups: map<string, Group>
    var managedNodesByUID: map<string, string>
    var nodesInCreationByNodegroup: map<string, seq<Vm>>
    var events: nat
    const workqueue: Queue

    function View(): World
      reads this
    {
      World(store, groups, managedNodesByUID, nodesInCreationByNodegroup, events)
    }

    constructor (workqueue: Queue)
      ensures this.workqueue == workqueue
      ensures View() == World(map[], map[], map[], map[], 0)
    {
      this.workqueue := workqueue;
      store, groups, managedNodesByUID, nodesInCreationByNodegroup, events := map[], map[], map[], map[], 0;
    }

    /** Scans the registered nodes, then the pending ones, in the order Go's maps yield them. */
    method FindNodeByCRDUID(g: Group, uid: string) returns (node: Option<Vm>)
      ensures node.Some? <==> g.HasUid(uid)
      ensures node.Some? ==> node.value.uid == uid && (node.value in g.nodes.Values || node.value in g.pending.Values)
    {
      var left := g.nodes.Keys;
      while left != {}
        invariant left <= g.nodes.Keys
        invariant forall n :: n in g.nodes && n !in left ==> g.nodes[n].uid != uid
      {
        var n :| n in left;
        if g.nodes[n].uid == uid {
          return Some(g.nodes[n]);
        }
        left := left - {n};
      }
      left := g.pending.Keys;
      while left != {}
        invariant left <= g.pending.Keys
        invariant forall n :: n in g.pending && n !in left ==> g.pending[n].uid != uid
      {
        var n :| n in left;
        if g.pending[n].uid == uid {
          return Some(g.pending[n]);
        }
        left := left - {n};
      }
      node := None;
    }

    method UpdateManagedNodeStatus(key: string, code: Code, updateOk: bool)
      modifies `store
      ensures store ==
              if updateOk && key in old(store) then old(store)[key := old(store)[key].(code := code)] else old(store)
    {
      if updateOk && key in store {
        store := store[key := store[key].(code := code)];
      }
    }

    method HandleManagedNode(key: string, look: Look) returns (recycled: bool, failed: bool)
      modifies `store, `groups, `managedNodesByUID, `nodesInCreationByNodegroup, `events
      ensures View() == Handle(old(View()), key, look).world
      ensures recycled == Handle(old(View()), key, look).recycled
      ensures failed == Handle(old(View()), key, look).failed
      ensures events == old(events) + if CodeChanges(old(View()), look) then 1 else 0
    {
      OneEventPerCodeChange(View(), key, look);
      if look.listed.None? {
        return false, false;
      }
      var managedNode := look.listed.value;
      var newCode := managedNode.code;
      failed := false;
      managedNodesByUID := managedNodesByUID[managedNode.uid := key];
      if managedNode.group !in groups {
        failed := true;
        newCode := if groups != map[] then CreationFailed else GroupNotFound;
        if newCode != managedNode.code {
          events := events + 1;
          UpdateManagedNodeStatus(key, newCode, look.updateOk);
        }
      } else {
        newCode, failed := HandleInGroup(key, look, managedNode);
      }
      recycled := newCode.GroupNotFound? || newCode.NiceLimitReached?;
    }

    /** The branches for a ManagedNode whose group exists (controller.go 971-1058). */
    method HandleInGroup(key: string, look: Look, managedNode: ManagedNode) returns (newCode: Code, failed: bool)
      requires managedNode.group in groups
      modifies `store, `groups, `nodesInCreationByNodegroup, `events
      ensures newCode == NewCode(Decide(old(View()), look, managedNode), managedNode.code)
      ensures failed == AddFails(old(View()), look, managedNode)
      ensures View() == Settled(old(View()), key, look, managedNode)
    {
      newCode, failed := managedNode.code, false;
      var node := FindNodeByCRDUID(groups[managedNode.group], managedNode.uid);
      if node.None? {
        if managedNode.code.NeedToCreated? || managedNode.code.GroupNotFound? || managedNode.code.NiceLimitReached? {
          newCode, failed := CreateWanted(look, managedNode);
        } else if managedNode.code.Created? {
          newCode := Deleted;
          events := events + 1;
        }
        if newCode != managedNode.code {
          UpdateManagedNodeStatus(key, newCode, look.updateOk);
        }
      }
    }

    /** The branch for a ManagedNode that wants a node and has none (controller.go 975-1040). */
    method CreateWanted(look: Look, managedNode: ManagedNode) returns (newCode: Code, failed: bool)
      requires managedNode.group in groups && Wanting(managedNode.code)
      modifies `groups, `nodesInCreationByNodegroup, `events
      ensures var d := DecideWanted(look, managedNode);
              && newCode == NewCode(d, managedNode.code)
              && failed == (look.machine.Some? && Admitted(look) && look.added.None?)
              && View() == (if d.Register? then Registered(old(View()), d.vm) else old(View()))
                           .(events := old(events) + if newCode != managedNode.code then 1 else 0)
    {
      newCode, failed := managedNode.code, false;
      if look.machine.None? {
        newCode := InstanceTypeNotRegistered;
        events := events + 1;
        return;
      }
      var limit := CheckResourceLimits(look.limits, look.listing, look.machine.value);
      if !limit.Nice? {
        if !managedNode.code.NiceLimitReached? {
          newCode := NiceLimitReached;
          events := events + 1;
        }
      } else if look.added.Some? {
        var vm := Vm(look.added.value, managedNode.group, managedNode.uid, look.controlPlane);
        AddManagedNode(vm);
        var nodesList := if managedNode.group in nodesInCreationByNodegroup
                         then nodesInCreationByNodegroup[managedNode.group] else [];
        nodesInCreationByNodegroup := nodesInCreationByNodegroup[managedNode.group := nodesList + [vm]];
        newCode := Creation;
        events := events + 1;
      } else {
        failed := true;
        newCode := CreationFailed;
        events := events + 1;
      }
    }

    method AddManagedNode(vm: Vm)
      requires vm.group in groups
      modifies `groups
      ensures var g := old(groups)[vm.group];
              groups == old(groups)[vm.group := g.(pending := g.pending[vm.name := vm])]
    {
      var g := groups[vm.group];
      groups := groups[vm.group := g.(pending := g.pending[vm.name := vm])];
    }

    /** `deleteNode` of a node group, run by an informer callback. */
    method DeleteNode(vm: Vm)
      modifies `groups
      ensures View() == DeleteVm(old(View()), vm)
    {
      if vm.group in groups && !vm.controlPlane {
        groups := groups[vm.group := groups[vm.group].Without(vm.name)];
      }
    }

    /** The callback for a deleted ManagedNode: it removes one node carrying the UID, if there is one
        and it is not a control plane node, and touches nothing else. */
    method DeleteManagedNode(mn: ManagedNode) returns (victim: Option<Vm>)
      modifies `groups
      ensures victim.Some? <==> mn.group in old(groups) && old(groups)[mn.group].HasUid(mn.uid)
      ensures victim.None? ==> View() == old(View())
      ensures victim.Some? ==> victim.value.uid == mn.uid
      ensures victim.Some? ==>
                var rest := old(groups)[mn.group].Without(victim.value.name);
                View() == if victim.value.controlPlane then old(View())
                          else old(View()).(groups := old(groups)[mn.group := rest])
    {
      victim := None;
      if mn.group in groups {
        victim := FindNodeByCRDUID(groups[mn.group], mn.uid);
        if victim.Some? && !victim.value.controlPlane {
          groups := groups[mn.group := groups[mn.group].Without(victim.value.name)];
        }
      }
    }

    /** One turn of the loop, from `Get` to `Done`, with the items that arrive meanwhile, and maybe a
        shutdown of the queue before them. */
    method NextTurn(look: Look, deletes: seq<Vm>, arrived: seq<Item>, shutDown: bool)
      returns (turn: Turn, recycle: bool)
      requires workqueue.Valid() && workqueue.processing == {} && workqueue.queue != []
      modifies `store, `groups, `managedNodesByUID, `nodesInCreationByNodegroup, `events
      modifies workqueue`queue, workqueue`dirty, workqueue`processing, workqueue`log, workqueue`shuttingDown
      ensures workqueue.Valid() && workqueue.processing == {}
      ensures |workqueue.dirty| < |old(workqueue.dirty)| + |arrived|
      ensures old(workqueue.dirty) - {turn.item} <= workqueue.dirty
      ensures workqueue.shuttingDown == (old(workqueue.shuttingDown) || shutDown)
      ensures !workqueue.shuttingDown ==> forall i :: 0 <= i < |arrived| ==> arrived[i] in workqueue.dirty
      ensures turn == Turn(old(workqueue.queue)[0], deletes, look)
      ensures View() == PlayTurn(old(View()), turn)
      ensures recycle == TurnRequeues(old(View()), turn)
      ensures workqueue.log == old(workqueue.log) + TurnCalls(turn.item, recycle)
    {
      var obj, shutdown := workqueue.Get();
      if shutdown {
        assert false;
      }
      turn := Turn(obj, deletes, look);
      workqueue.Arrive(shutDown, arrived);
      recycle := HandleItem(turn);
      workqueue.Done(obj);
    }

    method Recycle(items: seq<Item>)
      modifies workqueue`delayed, workqueue`log
      ensures workqueue.delayed == old(workqueue.delayed) + if workqueue.shuttingDown then [] else items
      ensures workqueue.log == old(workqueue.log) + Deferrals(items)
    {
      for i := 0 to |items|
        invariant workqueue.delayed == old(workqueue.delayed) + if workqueue.shuttingDown then [] else items[..i]
        invariant workqueue.log == old(workqueue.log) + Deferrals(items[..i])
      {
        workqueue.AddRateLimited(items[i]);
        assert items[..i + 1][..i] == items[..i];
      }
      assert items[..|items|] == items;
    }

    /** Drains the queue.  `arrivals[n]` are the items added from outside while turn `n` is
        processed; there are finitely many, and keys requeued by the drain itself are added only
        after the loop, so the drain ends.  The queue may be shut down in turn `shutDownAt`, and then
        drops what arrives.  With one worker the queue is never empty at `Get`, so a shutdown is never
        seen and the result is always true. */
    method ProcessAllItems(
      looks: nat -> Look, deletes: nat -> seq<Vm>, arrivals: seq<seq<Item>>, shutDownAt: nat)
      returns (turns: seq<Turn>, ok: bool)
      requires workqueue.Valid() && workqueue.processing == {}
      modifies this, workqueue
      ensures ok
      ensures workqueue.Valid() && workqueue.queue == [] && workqueue.processing == {} && workqueue.dirty == {}
      ensures View() == Play(Emptied(old(View())), turns)
      ensures BatchOk(View())
      ensures workqueue.shuttingDown == (old(workqueue.shuttingDown) || shutDownAt < |turns|)
      ensures SawInputs(turns, looks, deletes)
      ensures NothingLost(turns, {}, old(workqueue.dirty), Accepted(arrivals, old(workqueue.shuttingDown), shutDownAt))
      ensures var requeued := RequeuedItems(Emptied(old(View())), turns);
              && workqueue.delayed == old(workqueue.delayed) + (if workqueue.shuttingDown then [] else requeued)
              && workqueue.log == old(workqueue.log) + LoopCalls(Emptied(old(View())), turns) + Deferrals(requeued)
    {
      managedNodesByUID := map[];
      nodesInCreationByNodegroup := map[];
      var recycledToQueue;
      turns, recycledToQueue := Drain(looks, deletes, arrivals, shutDownAt);
      DrainLeavesBatchOk(old(View()), turns);
      Recycle(recycledToQueue);
      ok := true;
    }

    method Drain(looks: nat -> Look, deletes: nat -> seq<Vm>, arrivals: seq<seq<Item>>, shutDownAt: nat)
      returns (turns: seq<Turn>, recycledToQueue: seq<Item>)
      requires workqueue.Valid() && workqueue.processing == {}
      modifies `store, `groups, `managedNodesByUID, `nodesInCreationByNodegroup, `events
      modifies workqueue`queue, workqueue`dirty, workqueue`processing, workqueue`log, workqueue`shuttingDown
      ensures workqueue.Valid() && workqueue.queue == [] && workqueue.processing == {} && workqueue.dirty == {}
      ensures View() == Play(old(View()), turns)
      ensures workqueue.shuttingDown == (old(workqueue.shuttingDown) || shutDownAt < |turns|)
      ensures SawInputs(turns, looks, deletes)
      ensures NothingLost(turns, {}, old(workqueue.dirty), Accepted(arrivals, old(workqueue.shuttingDown), shutDownAt))
      ensures recycledToQueue == RequeuedItems(old(View()), turns)
      ensures workqueue.log == old(workqueue.log) + LoopCalls(old(View()), turns)
    {
      recycledToQueue, turns := [], [];
      ghost var start, calls, queued := View(), workqueue.log, workqueue.dirty;
      ghost var accepted := Accepted(arrivals, workqueue.shuttingDown, shutDownAt);
      while |workqueue.queue| > 0
        invariant workqueue.Valid() && workqueue.processing == {}
        invariant Played(start, calls, turns, View(), recycledToQueue, workqueue.log)
        invariant SawInputs(turns, looks, deletes)
        invariant workqueue.shuttingDown == (old(workqueue.shuttingDown) || shutDownAt < |turns|)
        invariant NothingLost(turns, workqueue.dirty, queued, accepted)
        decreases |workqueue.dirty| + Remaining(arrivals, |turns|)
      {
        var arrived := if |turns| < |arrivals| then arrivals[|turns|] else [];
        ghost var dirty, view, log := workqueue.dirty, View(), workqueue.log;
        var turn, recycle := NextTurn(looks(|turns|), deletes(|turns|), arrived, |turns| == shutDownAt);
        PlayedSnoc(start, calls, turns, view, recycledToQueue, log, turn);
        SawInputsSnoc(turns, turn, looks, deletes);
        NothingLostSnoc(turns, turn, dirty, workqueue.dirty, queued, accepted);
        if recycle {
          recycledToQueue := recycledToQueue + [turn.item];
        }
        turns := turns + [turn];
      }
    }

    /** The body of the loop between `Get` and `Done`. */
    method HandleItem(turn: Turn) returns (recycle: bool)
      requires workqueue.Valid()
      modifies `store, `groups, `managedNodesByUID, `nodesInCreationByNodegroup, `events, workqueue`log
      ensures workqueue.Valid()
      ensures View() == PlayTurn(old(View()), turn)
      ensures recycle == TurnRequeues(old(View()), turn)
      ensures workqueue.log == old(workqueue.log) + if recycle then [] else [Forgot(turn.item)]
    {
      RunDeletes(turn.deletes);
      recycle := false;
      if turn.item.Other? {
        workqueue.Forget(turn.item);
      } else {
        var recycled, failed := HandleManagedNode(turn.item.key, turn.look);
        if failed && recycled {
          recycle := true;
        } else {
          workqueue.Forget(turn.item);
        }
      }
    }

    method RunDeletes(vms: seq<Vm>)
      modifies `groups
      ensures View() == DeleteAll(old(View()), vms)
    {
      for i := 0 to |vms|
        invariant View() == DeleteAll(old(View()), vms[..i])
      {
        DeleteNode(vms[i]);
        assert vms[..i + 1][..i] == vms[..i];
      }
      assert vms[..|vms|] == vms;
    }

    /** `createNodes` of a node group: each node is launched, and entered or dropped. */
    method CreateNodes(vms: seq<Vm>, fates: Vm -> Fate)
      modifies `groups
      ensures View() == LaunchAll(old(View()), vms, fates)
    {
      for i := 0 to |vms|
        invariant View() == LaunchAll(old(View()), vms[..i], fates)
      {
        assert vms[..i + 1][..i] == vms[..i];
        var vm := vms[i];
        var launch := fates(vm).launch;
        if vm.group in groups && !launch.NotReady? {
          var g := groups[vm.group];
          var nodes := g.nodes;
          if launch.Launched? {
            nodes := nodes[vm.name := vm];
          }
          groups := groups[vm.group := Group(g.pending - {vm.name}, nodes)];
        }
      }
      assert vms[..|vms|] == vms;
    }

    /** Writes the status of every launched node; `orphans` counts those whose UID has no key. */
    method ReportNodes(vms: seq<Vm>, fates: Vm -> Fate) returns (orphans: nat)
      modifies `store
      ensures orphans == 0 <==> forall i :: 0 <= i < |vms| ==> vms[i].uid in managedNodesByUID
      ensures View() == ReportAll(old(View()), vms, fates)
    {
      orphans := 0;
      for i := 0 to |vms|
        invariant orphans == 0 <==> forall j :: 0 <= j < i ==> vms[j].uid in managedNodesByUID
        invariant View() == ReportAll(old(View()), vms[..i], fates)
      {
        assert vms[..i + 1][..i] == vms[..i];
        var vm := vms[i];
        if vm.uid in managedNodesByUID {
          if fates(vm).listed.Some? {
            var code := if fates(vm).running then Created else CreationFailed;
            UpdateManagedNodeStatus(managedNodesByUID[vm.uid], code, fates(vm).updateOk);
          }
        } else {
          orphans := orphans + 1;
        }
      }
      assert vms[..|vms|] == vms;
    }

    method StartOneGroup(g: string, fates: Vm -> Fate) returns (orphans: nat)
      requires BatchOk(View()) && g in nodesInCreationByNodegroup
      modifies `store, `groups
      ensures orphans == 0
      ensures View() == StartGroup(old(View()), g, fates)
    {
      orphans := 0;
      if g in groups {
        CreateNodes(nodesInCreationByNodegroup[g], fates);
        orphans := ReportNodes(nodesInCreationByNodegroup[g], fates);
      }
    }

    /** Starts the batch, group by group in the order Go's map yields them.  `orphans` counts the
        nodes for which no key is found; after a drain there are none. */
    method StartManagedNodes(fates: Vm -> Fate) returns (order: seq<string>, orphans: nat)
      requires BatchOk(View())
      modifies `store, `groups
      ensures orphans == 0
      ensures View() == StartAll(old(View()), order, fates)
      ensures multiset(order) == multiset(old(nodesInCreationByNodegroup).Keys)
      ensures BatchStarted(old(View()), View(), fates)
    {
      order, orphans := [], 0;
      ghost var batch := nodesInCreationByNodegroup;
      var left := nodesInCreationByNodegroup.Keys;
      while left != {}
        invariant left <= batch.Keys
        invariant multiset(order) == multiset(batch.Keys - left)
        invariant orphans == 0
        invariant View() == StartAll(old(View()), order, fates)
      {
        var g :| g in left;
        var missing := StartOneGroup(g, fates);
        orphans := orphans + missing;
        assert (order + [g])[..|order|] == order;
        OneMoreDone(order, batch.Keys, left, g);
        order := order + [g];
        left := left - {g};
      }
      assert batch.Keys - left == batch.Keys;
      StartAllStarts(old(View()), order, fates);
    }

    /** One round of `runWorker`: a drain, then the batch if there is one.  No node of the batch is
        ever without its key, and the worker always goes on. */
    method RunWorkerOnce(
      looks: nat -> Look, deletes: nat -> seq<Vm>, arrivals: seq<seq<Item>>, shutDownAt: nat, fates: Vm -> Fate)
      returns (turns: seq<Turn>, order: seq<string>, orphans: nat, goesOn: bool)
      requires workqueue.Valid() && workqueue.processing == {}
      modifies this, workqueue
      ensures goesOn && orphans == 0
      ensures workqueue.Valid() && workqueue.queue == [] && workqueue.processing == {}
      ensures SawInputs(turns, looks, deletes)
      ensures View() == StartAll(Play(Emptied(old(View())), turns), order, fates)
      ensures multiset(order) == multiset(Play(Emptied(old(View())), turns).batch.Keys)
      ensures BatchStarted(Play(Emptied(old(View())), turns), View(), fates)
    {
      order, orphans := [], 0;
      turns, goesOn := ProcessAllItems(looks, deletes, arrivals, shutDownAt);
      if |nodesInCreationByNodegroup| > 0 {
        order, orphans := StartManagedNodes(fates);
      } else {
        StartAllStarts(View(), order, fates);
      }
    }
  }
}
