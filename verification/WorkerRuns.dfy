/**
 What the worker's methods do (module `Controller`) are runs of the machine in `ControllerRuns`, guarded
 for a UID or up to date whenever its turns are, so the laws about such runs hold of the worker.
 */
module WorkerRuns {
  import opened Reconcile
  import opened ControllerRuns
  import opened StatusRuns
  import opened Controller

  lemma {:induction false} RunConcat(s: State, a: seq<Event>, b: seq<Event>, u: string)
    requires IsRun(s, a) && IsRun(After(s, a), b)
    ensures IsRun(s, a + b) && After(s, a + b) == After(After(s, a), b)
    ensures GuardedRun(s, a, u) && GuardedRun(After(s, a), b, u) ==> GuardedRun(s, a + b, u)
    ensures UpToDateRun(s, a) && UpToDateRun(After(s, a), b) ==> UpToDateRun(s, a + b)
    decreases |a|
  {
    if a == [] {
      assert a + b == b;
    } else {
      assert (a + b)[1..] == a[1..] + b;
      RunConcat(Next(s, a[0]), a[1..], b, u);
    }
  }

  /** What a run is asked to be: guarded for `u`, and up to date. */
  datatype Kind = Kind(guarded: bool, u: string, upToDate: bool)

  ghost predicate Allowed(s: State, e: Event, kind: Kind) {
    !e.RemoveManagedNode? && (kind.guarded ==> Guarded(s, e, kind.u)) && (kind.upToDate ==> UpToDate(s, e))
  }

  /** A run of this kind from `s` to `t`; the worker removes no ManagedNode from the API server. */
  ghost predicate Reaches(s: State, es: seq<Event>, t: State, kind: Kind) {
    && IsRun(s, es) && After(s, es) == t && (forall i :: 0 <= i < |es| ==> !es[i].RemoveManagedNode?)
    && (kind.guarded ==> GuardedRun(s, es, kind.u)) && (kind.upToDate ==> UpToDateRun(s, es))
  }

  lemma Extend(s: State, es: seq<Event>, t: State, kind: Kind, e: Event)
    requires Reaches(s, es, t, kind) && Enabled(t, e) && Allowed(t, e, kind)
    ensures Reaches(s, es + [e], Next(t, e), kind)
  {
    assert [e][0] == e && [e][1..] == [];
    assert IsRun(Next(t, e), []) && GuardedRun(Next(t, e), [], kind.u) && UpToDateRun(Next(t, e), []);
    assert IsRun(t, [e]) && After(t, [e]) == Next(t, e);
    RunConcat(s, es, [e], kind.u);
  }

  lemma Join(s: State, a: seq<Event>, t: State, b: seq<Event>, u: State, kind: Kind)
    requires Reaches(s, a, t, kind) && Reaches(t, b, u, kind)
    ensures Reaches(s, a + b, u, kind)
  {
    RunConcat(s, a, b, kind.u);
  }

  /******* A drain *******/

  /** Every delete strikes a node of its group. */
  predicate DeletesHit(w: World, vms: seq<Vm>) {
    vms == [] || (DeletesHit(w, vms[..|vms| - 1]) && Member(DeleteAll(w, vms[..|vms| - 1]), vms[|vms| - 1]))
  }

  predicate TurnsHit(w: World, turns: seq<Turn>) {
    turns == [] || (TurnsHit(w, turns[..|turns| - 1])
                    && DeletesHit(Play(w, turns[..|turns| - 1]), turns[|turns| - 1].deletes))
  }

  /** The handling of a turn is of this kind. */
  ghost predicate TurnAllowed(w: World, t: Turn, kind: Kind) {
    t.item.Key? ==> Allowed(State(DeleteAll(w, t.deletes), false), HandleKey(t.item.key, t.look), kind)
  }

  ghost predicate TurnsAllowed(w: World, turns: seq<Turn>, kind: Kind) {
    turns == [] || (TurnsAllowed(w, turns[..|turns| - 1], kind)
                    && TurnAllowed(Play(w, turns[..|turns| - 1]), turns[|turns| - 1], kind))
  }

  lemma {:induction false} DeletesRun(w: World, vms: seq<Vm>, kind: Kind) returns (es: seq<Event>)
    requires DeletesHit(w, vms)
    ensures Reaches(State(w, false), es, State(DeleteAll(w, vms), false), kind)
  {
    es := [];
    if vms != [] {
      var front, last := vms[..|vms| - 1], vms[|vms| - 1];
      es := DeletesRun(w, front, kind);
      Extend(State(w, false), es, State(DeleteAll(w, front), false), kind, Delete(last));
      es := es + [Delete(last)];
    }
  }

  lemma TurnRun(w: World, t: Turn, kind: Kind) returns (es: seq<Event>)
    requires DeletesHit(w, t.deletes) && TurnAllowed(w, t, kind)
    ensures Reaches(State(w, false), es, State(PlayTurn(w, t), false), kind)
  {
    es := DeletesRun(w, t.deletes, kind);
    if t.item.Key? {
      var e := HandleKey(t.item.key, t.look);
      Extend(State(w, false), es, State(DeleteAll(w, t.deletes), false), kind, e);
      es := es + [e];
    }
  }

  lemma {:induction false} PlayRun(w: World, turns: seq<Turn>, kind: Kind) returns (es: seq<Event>)
    requires TurnsHit(w, turns) && TurnsAllowed(w, turns, kind)
    ensures Reaches(State(w, false), es, State(Play(w, turns), false), kind)
  {
    es := [];
    if turns != [] {
      var front, last := turns[..|turns| - 1], turns[|turns| - 1];
      es := PlayRun(w, front, kind);
      var more := TurnRun(Play(w, front), last, kind);
      Join(State(w, false), es, State(Play(w, front), false), more, State(Play(w, turns), false), kind);
      es := es + more;
    }
  }

  /******* Starting the batch *******/

  /** Launches change groups only, reports change codes only. */
  predicate SameKeys(w: World, after: World) {
    after.store.Keys == w.store.Keys && after.uidKeys == w.uidKeys && after.groups.Keys == w.groups.Keys
  }

  lemma {:induction false} LaunchAllKeepsKeys(w: World, vms: seq<Vm>, fates: Vm -> Fate)
    ensures SameKeys(w, LaunchAll(w, vms, fates)) && LaunchAll(w, vms, fates).store == w.store
  {
    if vms != [] {
      LaunchAllKeepsKeys(w, vms[..|vms| - 1], fates);
    }
  }

  lemma {:induction false} ReportAllKeepsKeys(w: World, vms: seq<Vm>, fates: Vm -> Fate)
    ensures SameKeys(w, ReportAll(w, vms, fates))
  {
    if vms != [] {
      ReportAllKeepsKeys(w, vms[..|vms| - 1], fates);
    }
  }

  /** The status updates of the batch succeed, and the lister shows the ManagedNodes that are stored. */
  ghost predicate FatesUpToDate(w: World, fates: Vm -> Fate) {
    forall b :: fates(b).updateOk &&
      (b.uid in w.uidKeys && w.uidKeys[b.uid] in w.store ==> fates(b).listed.Some?)
  }

  lemma {:induction false} LaunchesRun(w: World, vms: seq<Vm>, fates: Vm -> Fate, kind: Kind) returns (es: seq<Event>)
    requires forall i :: 0 <= i < |vms| ==> vms[i] in w.BatchOf(vms[i].group)
    ensures Reaches(State(w, true), es, State(LaunchAll(w, vms, fates), true), kind)
  {
    es := [];
    if vms != [] {
      var front, last := vms[..|vms| - 1], vms[|vms| - 1];
      es := LaunchesRun(w, front, fates, kind);
      var e := LaunchOne(last, fates(last).launch);
      Extend(State(w, true), es, State(LaunchAll(w, front, fates), true), kind, e);
      es := es + [e];
    }
  }

  /** The world after the first `j` nodes of group `g` were reported and dropped from the batch. */
  function Reported(w: World, g: string, j: nat, fates: Vm -> Fate): World
    requires j <= |w.BatchOf(g)|
  {
    ReportAll(w, w.BatchOf(g)[..j], fates).(batch := w.batch[g := w.BatchOf(g)[j..]])
  }

  lemma ReportedOneMore(w: World, g: string, j: nat, fates: Vm -> Fate)
    requires j < |w.BatchOf(g)|
    ensures var s, e := State(Reported(w, g, j, fates), true), ReportOne(g, fates(w.BatchOf(g)[j]));
            Enabled(s, e) && Next(s, e) == State(Reported(w, g, j + 1, fates), true)
  {
    var vms := w.BatchOf(g);
    assert vms[..j + 1][..j] == vms[..j] && vms[..j + 1][j] == vms[j];
    assert vms[j..][0] == vms[j] && vms[j..][1..] == vms[j + 1..];
  }

  lemma ReportAllowed(w: World, g: string, j: nat, fates: Vm -> Fate, kind: Kind)
    requires j < |w.BatchOf(g)| && (kind.upToDate ==> FatesUpToDate(w, fates))
    ensures Allowed(State(Reported(w, g, j, fates), true), ReportOne(g, fates(w.BatchOf(g)[j])), kind)
  {
    var vms := w.BatchOf(g);
    ReportAllKeepsKeys(w, vms[..j], fates);
    assert vms[j..][0] == vms[j];
  }

  lemma OneMoreReport(w: World, g: string, j: nat, fates: Vm -> Fate, kind: Kind, es: seq<Event>)
    returns (more: seq<Event>)
    requires j < |w.BatchOf(g)| && (kind.upToDate ==> FatesUpToDate(w, fates))
    requires Reaches(State(w, true), es, State(Reported(w, g, j, fates), true), kind)
    ensures Reaches(State(w, true), more, State(Reported(w, g, j + 1, fates), true), kind)
  {
    var e := ReportOne(g, fates(w.BatchOf(g)[j]));
    ReportedOneMore(w, g, j, fates);
    ReportAllowed(w, g, j, fates, kind);
    Extend(State(w, true), es, State(Reported(w, g, j, fates), true), kind, e);
    more := es + [e];
  }

  lemma {:induction false} ReportsRun(w: World, g: string, j: nat, fates: Vm -> Fate, kind: Kind)
    returns (es: seq<Event>)
    requires g in w.batch && j <= |w.BatchOf(g)| && (kind.upToDate ==> FatesUpToDate(w, fates))
    ensures Reaches(State(w, true), es, State(Reported(w, g, j, fates), true), kind)
  {
    es := [];
    if j == 0 {
      assert w.batch[g := w.BatchOf(g)[0..]] == w.batch;
    } else {
      es := ReportsRun(w, g, j - 1, fates, kind);
      es := OneMoreReport(w, g, j - 1, fates, kind, es);
    }
  }

  /** The world after a group was started: as `StartGroup` says, but its batch is dropped. */
  lemma GroupRun(w: World, g: string, fates: Vm -> Fate, kind: Kind) returns (es: seq<Event>, after: World)
    requires g in w.batch && forall i :: 0 <= i < |w.batch[g]| ==> w.batch[g][i].group == g
    requires kind.upToDate ==> FatesUpToDate(w, fates)
    ensures Reaches(State(w, true), es, State(after, true), kind)
    ensures SameKeys(w, after)
    ensures after == StartGroup(w, g, fates).(batch := after.batch)
    ensures after.batch.Keys == w.batch.Keys && forall h :: h != g ==> after.BatchOf(h) == w.BatchOf(h)
  {
    es, after := [], w;
    if g in w.groups {
      var vms := w.BatchOf(g);
      var launched := LaunchAll(w, vms, fates);
      es := LaunchesRun(w, vms, fates, kind);
      LaunchAllKeepsKeys(w, vms, fates);
      ReportAllKeepsKeys(launched, vms, fates);
      var more := ReportsRun(launched, g, |vms|, fates, kind);
      after := Reported(launched, g, |vms|, fates);
      assert vms[..|vms|] == vms;
      Join(State(w, true), es, State(launched, true), more, State(after, true), kind);
      es := es + more;
    }
  }

  lemma {:induction false} LaunchAllIgnoresBatch(w: World, batch: map<string, seq<Vm>>, vms: seq<Vm>, fates: Vm -> Fate)
    ensures LaunchAll(w.(batch := batch), vms, fates) == LaunchAll(w, vms, fates).(batch := batch)
  {
    if vms != [] {
      LaunchAllIgnoresBatch(w, batch, vms[..|vms| - 1], fates);
    }
  }

  lemma {:induction false} ReportAllIgnoresBatch(w: World, batch: map<string, seq<Vm>>, vms: seq<Vm>, fates: Vm -> Fate)
    ensures ReportAll(w.(batch := batch), vms, fates) == ReportAll(w, vms, fates).(batch := batch)
  {
    if vms != [] {
      ReportAllIgnoresBatch(w, batch, vms[..|vms| - 1], fates);
    }
  }

  lemma StartGroupIgnoresOthers(w: World, batch: map<string, seq<Vm>>, g: string, fates: Vm -> Fate)
    requires w.(batch := batch).BatchOf(g) == w.BatchOf(g)
    ensures StartGroup(w.(batch := batch), g, fates) == StartGroup(w, g, fates).(batch := batch)
  {
    var vms := w.BatchOf(g);
    LaunchAllIgnoresBatch(w, batch, vms, fates);
    ReportAllIgnoresBatch(LaunchAll(w, vms, fates), batch, vms, fates);
  }

  lemma {:induction false} GroupsRun(w: World, order: seq<string>, fates: Vm -> Fate, kind: Kind)
    returns (es: seq<Event>, after: World)
    requires BatchOk(w) && Distinct(order) && forall i :: 0 <= i < |order| ==> order[i] in w.batch
    requires kind.upToDate ==> FatesUpToDate(w, fates)
    ensures Reaches(State(w, true), es, State(after, true), kind)
    ensures SameKeys(w, after)
    ensures after == StartAll(w, order, fates).(batch := after.batch)
    ensures after.batch.Keys == w.batch.Keys && forall h :: h !in order ==> after.BatchOf(h) == w.BatchOf(h)
  {
    es, after := [], w;
    if order != [] {
      var front, g := order[..|order| - 1], order[|order| - 1];
      var between;
      es, between := GroupsRun(w, front, fates, kind);
      assert g !in front && between.BatchOf(g) == w.BatchOf(g) == w.batch[g];
      var more;
      more, after := GroupRun(between, g, fates, kind);
      var all := StartAll(w, front, fates);
      assert all.batch == w.batch && between == all.(batch := between.batch);
      StartGroupIgnoresOthers(all, between.batch, g, fates);
      Join(State(w, true), es, State(between, true), more, State(after, true), kind);
      es := es + more;
    }
  }

  /******* A round of the worker *******/

  /** Where a round of the worker ends (`Controller.RunWorkerOnce`). */
  function RoundEnd(w: World, turns: seq<Turn>, order: seq<string>, fates: Vm -> Fate): World {
    Emptied(StartAll(Play(Emptied(w), turns), order, fates))
  }

  /** The turns of a round hit with their deletes and are of this kind, and so are its reports. */
  ghost predicate RoundOk(w: World, turns: seq<Turn>, order: seq<string>, fates: Vm -> Fate, kind: Kind) {
    && TurnsHit(Emptied(w), turns) && TurnsAllowed(Emptied(w), turns, kind)
    && multiset(order) == multiset(Play(Emptied(w), turns).batch.Keys)
    && (kind.upToDate ==> FatesUpToDate(Play(Emptied(w), turns), fates))
  }

  /** One round, from the drain to the end of the batch, is a run of the machine, of the same kind. */
  lemma RoundRun(w: World, turns: seq<Turn>, order: seq<string>, fates: Vm -> Fate, kind: Kind)
    returns (es: seq<Event>)
    requires RoundOk(w, turns, order, fates, kind)
    ensures Reaches(State(Emptied(w), false), es, State(RoundEnd(w, turns, order, fates), false), kind)
  {
    var s, drained := State(Emptied(w), false), Play(Emptied(w), turns);
    es := PlayRun(Emptied(w), turns, kind);
    Extend(s, es, State(drained, false), kind, StartBatch);
    es := es + [StartBatch];
    DrainLeavesBatchOk(w, turns);
    OrderMeaning(order, drained.batch.Keys);
    var more, after := GroupsRun(drained, order, fates, kind);
    Join(s, es, State(drained, true), more, State(after, true), kind);
    es := es + more;
    Extend(s, es, State(after, true), kind, NextDrain);
    es := es + [NextDrain];
  }

  /** So a round whose turns are guarded for `u` keeps at most one node of `u` in every group, whatever its
      listings showed, however its launches went and whatever other nodes there are. */
  lemma RoundKeepsOneNode(w: World, turns: seq<Turn>, order: seq<string>, fates: Vm -> Fate, u: string)
    requires Named(Emptied(w)) && OneNodeOf(Emptied(w), u)
    requires RoundOk(w, turns, order, fates, Kind(true, u, false))
    ensures var after := RoundEnd(w, turns, order, fates); Named(after) && OneNodeOf(after, u)
  {
    var es := RoundRun(w, turns, order, fates, Kind(true, u, false));
    GuardedRunsKeepOneNode(State(Emptied(w), false), es, u);
  }

  lemma {:induction false} NoChangesSameCode(s: State, es: seq<Event>, key: string)
    requires key in s.world.store && Tracked(s)
    requires IsRun(s, es) && UpToDateRun(s, es) && Spares(es, key) && Changes(s, es, key) == 0
    ensures key in After(s, es).world.store && After(s, es).world.store[key].code == s.world.store[key].code
    decreases |es|
  {
    if es != [] {
      StepLowersPotential(s, es[0], key);
      StepKeepsTracked(s, es[0]);
      assert Spares(es[1..], key);
      NoChangesSameCode(Next(s, es[0]), es[1..], key);
    }
  }

  /** Between rounds nothing waits. */
  predicate Quiet(w: World) { w.batch == map[] && w.uidKeys == map[] }

  lemma QuietPotential(w: World, key: string)
    requires key in w.store && Quiet(w)
    ensures UniqueUids(w) ==> Tracked(State(w, false))
    ensures Potential(State(w, false), key) == Rank(w, key)
  {
    assert StaleFor(w, key) == {};
  }

  lemma QuietRunLowersRank(w: World, es: seq<Event>, after: World, key: string)
    requires key in w.store && UniqueUids(w) && Quiet(w) && Quiet(after)
    requires Reaches(State(w, false), es, State(after, false), Kind(false, "", true))
    ensures key in after.store && UniqueUids(after)
    ensures Rank(after, key) + (if after.store[key].code != w.store[key].code then 1 else 0) <= Rank(w, key)
  {
    var s := State(w, false);
    QuietPotential(w, key);
    ChangesBounded(s, es, key);
    QuietPotential(after, key);
    if Changes(s, es, key) == 0 {
      NoChangesSameCode(s, es, key);
    }
  }

  /** And a round with an up-to-date store lowers the rank of a ManagedNode, which is at most 5, if its
      status code changed, and never raises it: so its code changes in at most five rounds. */
  lemma RoundLowersRank(w: World, turns: seq<Turn>, order: seq<string>, fates: Vm -> Fate, key: string)
    requires key in w.store && UniqueUids(w) && RoundOk(w, turns, order, fates, Kind(false, "", true))
    ensures var after := RoundEnd(w, turns, order, fates);
            && key in after.store && UniqueUids(after)
            && Rank(after, key) + (if after.store[key].code != w.store[key].code then 1 else 0) <= Rank(w, key) <= 5
  {
    var es := RoundRun(w, turns, order, fates, Kind(false, "", true));
    QuietRunLowersRank(Emptied(w), es, RoundEnd(w, turns, order, fates), key);
  }

  /** And it records an event for each status change of its handlings, and no other. */
  lemma RoundEvents(w: World, turns: seq<Turn>, order: seq<string>, fates: Vm -> Fate) returns (es: seq<Event>)
    requires RoundOk(w, turns, order, fates, Kind(false, "", true))
    ensures Reaches(State(Emptied(w), false), es, State(RoundEnd(w, turns, order, fates), false), Kind(false, "", true))
    ensures RoundEnd(w, turns, order, fates).events == w.events + StatusWrites(State(Emptied(w), false), es)
  {
    es := RoundRun(w, turns, order, fates, Kind(false, "", true));
    EventsAreStatusWrites(State(Emptied(w), false), es);
  }
}
