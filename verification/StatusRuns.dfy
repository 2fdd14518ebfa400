/**
 Status changes over whole runs of the ManagedNode controller, with an up-to-date store.

 ManagedNodes may be removed and created again, also under a name whose predecessors' nodes still wait
 in the batch: `startManagedNodes` then writes the status of those nodes to the new ManagedNode
 (server/controller.go 647-694).
 */
module StatusRuns {
  import opened Wrappers
  import A = Admission
  import opened Reconcile
  import opened ControllerRuns

  /******* How many changes may come *******/

  function GroupRank(c: Code): nat {
    match c
    case NeedToCreated => 4
    case GroupNotFound => 4
    case NiceLimitReached => 3
    case Creation => 2
    case Created => 1
    case _ => 0
  }

  /** How many status changes may still come: by the phase of the node group (absent with nothing
      discovered, absent, present) and the code. */
  function Rank(w: World, key: string): (r: nat)
    requires key in w.store
    ensures r <= 5
  {
    var mn := w.store[key];
    if mn.group in w.groups then GroupRank(mn.code)
    else if w.Discovered() then
      (if mn.code.CreationFailed? then 0 else if GroupRank(mn.code) == 0 then 1 else GroupRank(mn.code))
    else if mn.code.GroupNotFound? then 4 else 5
  }

  /** 1 while an `addManagedNode` attempt for the key may still come. */
  function AttemptsLeft(w: World, key: string): nat
    requires key in w.store
  {
    var mn := w.store[key];
    if mn.group in w.groups && GroupRank(mn.code) <= 2 then 0 else 1
  }

  /** The store is up to date wherever the worker looks, and the API server hands out no UID that is still
      known. */
  predicate Informed(s: State, e: Event) {
    && (e.HandleKey? ==> Fresh(s.world, e.key, e.look))
    && (e.ReportOne? && s.world.BatchOf(e.group) != [] ==>
          var uid := s.world.BatchOf(e.group)[0].uid;
          && e.fate.updateOk
          && (uid in s.world.uidKeys && s.world.uidKeys[uid] in s.world.store ==> e.fate.listed.Some?))
    && (e.AddManagedNode? ==> e.mn.uid !in s.world.uidKeys)
  }

  /** And node groups are not removed; `StatusBounds.NoBoundWhenGroupsGo` says why. */
  predicate UpToDate(s: State, e: Event) { Informed(s, e) && !e.RemoveGroup? }

  predicate UpToDateRun(s: State, es: seq<Event>)
    requires IsRun(s, es)
    decreases |es|
  {
    es == [] || (UpToDate(s, es[0]) && UpToDateRun(Next(s, es[0]), es[1..]))
  }

  /******* What waits in the batch *******/

  /** A node of `u` waits in the batch. */
  ghost predicate Waits(w: World, u: string) {
    exists g, i :: 0 <= i < |w.BatchOf(g)| && w.BatchOf(g)[i].uid == u
  }

  /** The UIDs of the waiting nodes whose status will be written to `key`. */
  ghost function WaitingFor(w: World, key: string): set<string> {
    set u | u in w.uidKeys && w.uidKeys[u] == key && Waits(w, u)
  }

  /** Those of predecessors: the ManagedNode stored under the key now has another UID. */
  ghost function StaleFor(w: World, key: string): set<string>
    requires key in w.store
  {
    WaitingFor(w, key) - {w.store[key].uid}
  }

  ghost predicate UniqueUids(w: World) {
    forall j, k :: j in w.store && k in w.store && w.store[j].uid == w.store[k].uid ==> j == k
  }

  /** A known UID of a stored ManagedNode leads to it. */
  ghost predicate KeysKnown(w: World) {
    forall k :: k in w.store && w.store[k].uid in w.uidKeys ==> w.uidKeys[w.store[k].uid] == k
  }

  predicate Known(w: World, g: string, b: Vm) { g in w.groups && b.uid in w.uidKeys }

  ghost predicate EntriesKnown(w: World) {
    forall g, i :: 0 <= i < |w.BatchOf(g)| ==> Known(w, g, w.BatchOf(g)[i])
  }

  /** No UID waits twice. */
  ghost predicate EntriesDistinct(w: World) {
    forall g, i, h, j ::
      (0 <= i < |w.BatchOf(g)| && 0 <= j < |w.BatchOf(h)| && w.BatchOf(g)[i].uid == w.BatchOf(h)[j].uid) ==>
        g == h && i == j
  }

  /** If the ManagedNode of this batch node is still stored, it is in status Creation, in this group. */
  predicate InCreation(w: World, g: string, b: Vm) {
    b.uid in w.uidKeys && w.uidKeys[b.uid] in w.store && w.store[w.uidKeys[b.uid]].uid == b.uid ==>
      w.store[w.uidKeys[b.uid]].code.Creation? && w.store[w.uidKeys[b.uid]].group == g
  }

  ghost predicate EntriesInCreation(w: World) {
    forall g, i :: 0 <= i < |w.BatchOf(g)| ==> InCreation(w, g, w.BatchOf(g)[i])
  }

  /** The invariant: while the queue is drained, a batch node stands for a ManagedNode in status Creation or
      for one that was removed, and once. */
  ghost predicate Tracked(s: State) {
    && UniqueUids(s.world) && KeysKnown(s.world)
    && EntriesKnown(s.world) && EntriesDistinct(s.world)
    && (!s.starting ==> EntriesInCreation(s.world))
  }

  lemma SameBatchSameWaiting(w: World, w': World, key: string)
    requires w'.batch == w.batch && w'.uidKeys == w.uidKeys
    ensures WaitingFor(w', key) == WaitingFor(w, key)
  {
    forall u ensures Waits(w', u) <==> Waits(w, u) {
      if g, i :| 0 <= i < |w.BatchOf(g)| && w.BatchOf(g)[i].uid == u {
        assert w'.BatchOf(g)[i].uid == u;
      }
      if g, i :| 0 <= i < |w'.BatchOf(g)| && w'.BatchOf(g)[i].uid == u {
        assert w.BatchOf(g)[i].uid == u;
      }
    }
  }

  /******* A handling *******/

  lemma HandleExtendsBatch(w: World, key: string, look: Look, g: string)
    requires Fresh(w, key, look) && key in w.store
    ensures var d := Decide(w, look, w.store[key]);
            Handle(w, key, look).world.BatchOf(g) ==
            w.BatchOf(g) + if d.Register? && g == w.store[key].group then [d.vm] else []
  {
  }

  lemma HandleKeepsKeys(w: World, key: string, look: Look)
    requires UniqueUids(w) && KeysKnown(w) && Fresh(w, key, look)
    ensures UniqueUids(Handle(w, key, look).world) && KeysKnown(Handle(w, key, look).world)
  {
    FreshChange(w, key, look);
  }

  /** A registered ManagedNode has no node in the batch yet. */
  lemma RegistersFresh(w: World, key: string, look: Look, g: string, i: nat)
    requires KeysKnown(w) && EntriesKnown(w) && EntriesInCreation(w)
    requires Fresh(w, key, look) && key in w.store && Decide(w, look, w.store[key]).Register?
    requires i < |w.BatchOf(g)|
    ensures w.BatchOf(g)[i].uid != w.store[key].uid
  {
    assert InCreation(w, g, w.BatchOf(g)[i]) && Known(w, g, w.BatchOf(g)[i]);
  }

  lemma OldEntryStays(w: World, key: string, look: Look, g: string, b: Vm)
    requires UniqueUids(w) && KeysKnown(w) && Fresh(w, key, look) && key in w.store
    requires Known(w, g, b) && InCreation(w, g, b)
    ensures InCreation(Handle(w, key, look).world, g, b)
  {
    FreshChange(w, key, look);
  }

  lemma HandleKeepsEntryAt(w: World, key: string, look: Look, g: string, i: nat)
    requires UniqueUids(w) && KeysKnown(w) && EntriesKnown(w) && EntriesInCreation(w)
    requires Fresh(w, key, look) && key in w.store
    requires i < |Handle(w, key, look).world.BatchOf(g)|
    ensures var w' := Handle(w, key, look).world;
            Known(w', g, w'.BatchOf(g)[i]) && InCreation(w', g, w'.BatchOf(g)[i])
  {
    HandleExtendsBatch(w, key, look, g);
    HandleKeepsGroupNames(w, key, look);
    FreshChange(w, key, look);
    if i < |w.BatchOf(g)| {
      OldEntryStays(w, key, look, g, w.BatchOf(g)[i]);
    }
  }

  lemma HandleKeepsDistinct(w: World, key: string, look: Look, g: string, i: nat, h: string, j: nat)
    requires UniqueUids(w) && KeysKnown(w) && EntriesKnown(w) && EntriesInCreation(w) && EntriesDistinct(w)
    requires Fresh(w, key, look) && key in w.store
    requires i < |Handle(w, key, look).world.BatchOf(g)| && j < |Handle(w, key, look).world.BatchOf(h)|
    requires Handle(w, key, look).world.BatchOf(g)[i].uid == Handle(w, key, look).world.BatchOf(h)[j].uid
    ensures g == h && i == j
  {
    HandleExtendsBatch(w, key, look, g);
    HandleExtendsBatch(w, key, look, h);
    if i < |w.BatchOf(g)| && j >= |w.BatchOf(h)| {
      RegistersFresh(w, key, look, g, i);
    }
    if j < |w.BatchOf(h)| && i >= |w.BatchOf(g)| {
      RegistersFresh(w, key, look, h, j);
    }
  }

  lemma HandleKeepsTracked(s: State, key: string, look: Look)
    requires !s.starting && Tracked(s) && Fresh(s.world, key, look)
    ensures Tracked(s.(world := Handle(s.world, key, look).world))
  {
    var w, w' := s.world, Handle(s.world, key, look).world;
    HandleKeepsKeys(w, key, look);
    if key in w.store {
      forall g, i | 0 <= i < |w'.BatchOf(g)|
        ensures Known(w', g, w'.BatchOf(g)[i]) && InCreation(w', g, w'.BatchOf(g)[i])
      {
        HandleKeepsEntryAt(w, key, look, g, i);
      }
      forall g, i, h, j | 0 <= i < |w'.BatchOf(g)| && 0 <= j < |w'.BatchOf(h)|
                          && w'.BatchOf(g)[i].uid == w'.BatchOf(h)[j].uid
        ensures g == h && i == j
      {
        HandleKeepsDistinct(w, key, look, g, i, h, j);
      }
    }
  }

  /** A handling of `key` adds no predecessor's node to any key. */
  lemma HandleKeepsWaits(w: World, key: string, look: Look, u: string)
    requires Fresh(w, key, look) && key in w.store && u != w.store[key].uid
    ensures Waits(Handle(w, key, look).world, u) <==> Waits(w, u)
  {
    var w' := Handle(w, key, look).world;
    if g, i :| 0 <= i < |w.BatchOf(g)| && w.BatchOf(g)[i].uid == u {
      HandleExtendsBatch(w, key, look, g);
      assert w'.BatchOf(g)[i].uid == u;
    }
    if g, i :| 0 <= i < |w'.BatchOf(g)| && w'.BatchOf(g)[i].uid == u {
      HandleExtendsBatch(w, key, look, g);
      assert w.BatchOf(g)[i].uid == u;
    }
  }

  lemma HandleKeepsUidKeys(w: World, key: string, look: Look)
    requires Fresh(w, key, look) && key in w.store
    ensures Handle(w, key, look).world.uidKeys == w.uidKeys[w.store[key].uid := key]
  {
  }

  lemma HandleKeepsWaiting(w: World, key: string, look: Look, k: string, u: string)
    requires UniqueUids(w) && KeysKnown(w) && Fresh(w, key, look) && key in w.store
    requires k != key || u != w.store[key].uid
    ensures u in WaitingFor(Handle(w, key, look).world, k) <==> u in WaitingFor(w, k)
  {
    HandleKeepsUidKeys(w, key, look);
    if u != w.store[key].uid {
      HandleKeepsWaits(w, key, look, u);
    }
  }

  lemma HandleKeepsStale(w: World, key: string, look: Look, k: string)
    requires UniqueUids(w) && KeysKnown(w) && Fresh(w, key, look) && key in w.store && k in w.store
    ensures k in Handle(w, key, look).world.store && StaleFor(Handle(w, key, look).world, k) == StaleFor(w, k)
  {
    FreshChange(w, key, look);
    forall u | u != w.store[k].uid
      ensures u in WaitingFor(Handle(w, key, look).world, k) <==> u in WaitingFor(w, k)
    {
      HandleKeepsWaiting(w, key, look, k, u);
    }
  }

  /******* A report *******/

  /** The batch after a report. */
  lemma ReportPops(s: State, e: Event, g: string)
    requires e.ReportOne? && Enabled(s, e)
    ensures Next(s, e).world.BatchOf(g) ==
            if g == e.group then s.world.BatchOf(g)[1..] else s.world.BatchOf(g)
    ensures Next(s, e).world.uidKeys == s.world.uidKeys && Next(s, e).world.groups == s.world.groups
  {
  }

  lemma PopKeepsWaits(s: State, e: Event, u: string)
    requires e.ReportOne? && Enabled(s, e) && EntriesDistinct(s.world)
    ensures Waits(Next(s, e).world, u) <==> Waits(s.world, u) && u != s.world.BatchOf(e.group)[0].uid
  {
    var w, w' := s.world, Next(s, e).world;
    if g, i :| 0 <= i < |w.BatchOf(g)| && w.BatchOf(g)[i].uid == u {
      ReportPops(s, e, g);
      if g == e.group {
        if i > 0 { assert w'.BatchOf(g)[i - 1].uid == u; }
      } else {
        assert w'.BatchOf(g)[i].uid == u;
      }
    }
    if g, i :| 0 <= i < |w'.BatchOf(g)| && w'.BatchOf(g)[i].uid == u {
      ReportPops(s, e, g);
      var j := if g == e.group then i + 1 else i;
      assert w.BatchOf(g)[j].uid == u;
    }
  }

  /** A report takes its node from those that wait for its key, and from no other. */
  lemma ReportTakesOne(s: State, e: Event, k: string)
    requires e.ReportOne? && Enabled(s, e) && EntriesDistinct(s.world)
    ensures WaitingFor(Next(s, e).world, k) == WaitingFor(s.world, k) - {s.world.BatchOf(e.group)[0].uid}
  {
    ReportPops(s, e, e.group);
    forall u ensures Waits(Next(s, e).world, u) <==> Waits(s.world, u) && u != s.world.BatchOf(e.group)[0].uid {
      PopKeepsWaits(s, e, u);
    }
  }

  lemma HeadWaits(s: State, g: string)
    requires Tracked(s) && s.world.BatchOf(g) != []
    ensures var u := s.world.BatchOf(g)[0].uid;
            u in s.world.uidKeys && u in WaitingFor(s.world, s.world.uidKeys[u]) && g in s.world.groups
  {
    assert Known(s.world, g, s.world.BatchOf(g)[0]) && Waits(s.world, s.world.BatchOf(g)[0].uid);
  }

  function ReportCode(e: Event): Code
    requires e.ReportOne?
  {
    if e.fate.running then Created else CreationFailed
  }

  /** What a report writes. */
  lemma ReportWrites(s: State, e: Event)
    requires e.ReportOne? && Enabled(s, e) && UpToDate(s, e) && Tracked(s)
    ensures var k := s.world.uidKeys[s.world.BatchOf(e.group)[0].uid];
            Next(s, e).world.store ==
            if k in s.world.store then s.world.store[k := s.world.store[k].(code := ReportCode(e))] else s.world.store
  {
    HeadWaits(s, e.group);
  }

  lemma ReportKeepsTracked(s: State, e: Event)
    requires e.ReportOne? && Enabled(s, e) && UpToDate(s, e) && Tracked(s)
    ensures Tracked(Next(s, e))
  {
    var w, w' := s.world, Next(s, e).world;
    ReportWrites(s, e);
    forall g, i | 0 <= i < |w'.BatchOf(g)| ensures Known(w', g, w'.BatchOf(g)[i]) {
      ReportPops(s, e, g);
      assert Known(w, g, w.BatchOf(g)[if g == e.group then i + 1 else i]);
    }
    forall g, i, h, j | 0 <= i < |w'.BatchOf(g)| && 0 <= j < |w'.BatchOf(h)|
                        && w'.BatchOf(g)[i].uid == w'.BatchOf(h)[j].uid
      ensures g == h && i == j
    {
      ReportPops(s, e, g);
      ReportPops(s, e, h);
      var m, n := if g == e.group then i + 1 else i, if h == e.group then j + 1 else j;
      assert w.BatchOf(g)[m].uid == w.BatchOf(h)[n].uid;
    }
  }

  /******* The invariant *******/

  /** Steps that leave the batch and the known keys alone. */
  lemma SameBatchKeepsEntries(s: State, t: State)
    requires EntriesKnown(s.world) && EntriesDistinct(s.world)
    requires t.world.batch == s.world.batch && t.world.uidKeys == s.world.uidKeys
    requires s.world.groups.Keys <= t.world.groups.Keys
    ensures EntriesKnown(t.world) && EntriesDistinct(t.world)
  {
    var w, w' := s.world, t.world;
    assert forall g :: w'.BatchOf(g) == w.BatchOf(g);
    forall g, i | 0 <= i < |w'.BatchOf(g)| ensures Known(w', g, w'.BatchOf(g)[i]) {
      assert Known(w, g, w.BatchOf(g)[i]);
    }
    forall g, i, h, j | 0 <= i < |w'.BatchOf(g)| && 0 <= j < |w'.BatchOf(h)|
                        && w'.BatchOf(g)[i].uid == w'.BatchOf(h)[j].uid
      ensures g == h && i == j
    {
      assert w.BatchOf(g)[i].uid == w.BatchOf(h)[j].uid;
    }
  }

  lemma EntryKeepsTracked(s: State, e: Event)
    requires (e.AddManagedNode? || e.RemoveManagedNode?) && Enabled(s, e) && UpToDate(s, e) && Tracked(s)
    ensures Tracked(Next(s, e))
  {
    var w, w' := s.world, Next(s, e).world;
    SameBatchKeepsEntries(s, Next(s, e));
    if !s.starting {
      forall g, i | 0 <= i < |w'.BatchOf(g)| ensures InCreation(w', g, w'.BatchOf(g)[i]) {
        assert w'.BatchOf(g) == w.BatchOf(g);
        assert InCreation(w, g, w.BatchOf(g)[i]) && Known(w, g, w.BatchOf(g)[i]);
      }
    }
  }

  lemma GroupStepKeepsTracked(s: State, e: Event)
    requires e.Delete? || e.AddGroup? || e.NodeEnters? || e.Clear? || e.LaunchOne?
    requires Enabled(s, e) && Tracked(s)
    ensures Tracked(Next(s, e))
  {
    var w, w' := s.world, Next(s, e).world;
    SameBatchKeepsEntries(s, Next(s, e));
    if !s.starting {
      forall g, i | 0 <= i < |w'.BatchOf(g)| ensures InCreation(w', g, w'.BatchOf(g)[i]) {
        assert w'.BatchOf(g) == w.BatchOf(g);
        assert InCreation(w, g, w.BatchOf(g)[i]);
      }
    }
  }

  lemma StepKeepsTracked(s: State, e: Event)
    requires Enabled(s, e) && UpToDate(s, e) && Tracked(s)
    ensures Tracked(Next(s, e))
  {
    if e.HandleKey? {
      HandleKeepsTracked(s, e.key, e.look);
    } else if e.ReportOne? {
      ReportKeepsTracked(s, e);
    } else if e.AddManagedNode? || e.RemoveManagedNode? {
      EntryKeepsTracked(s, e);
    } else if e.Delete? || e.AddGroup? || e.NodeEnters? || e.Clear? || e.LaunchOne? {
      GroupStepKeepsTracked(s, e);
    }
  }

  /******* Counting *******/

  function Changed(s: State, e: Event, key: string): nat
    requires Enabled(s, e)
  {
    if key in s.world.store && key in Next(s, e).world.store
       && s.world.store[key].code != Next(s, e).world.store[key].code then 1 else 0
  }

  function Attempted(s: State, e: Event, key: string): nat {
    if e.HandleKey? && e.key == key && e.look.listed.Some? && Attempts(s.world, e.look, e.look.listed.value)
    then 1 else 0
  }

  /** Status changes of a key, and `addManagedNode` calls for it, along a run. */
  function Changes(s: State, es: seq<Event>, key: string): nat
    requires IsRun(s, es)
    decreases |es|
  {
    if es == [] then 0 else Changed(s, es[0], key) + Changes(Next(s, es[0]), es[1..], key)
  }

  function AttemptCount(s: State, es: seq<Event>, key: string): nat
    requires IsRun(s, es)
    decreases |es|
  {
    if es == [] then 0 else Attempted(s, es[0], key) + AttemptCount(Next(s, es[0]), es[1..], key)
  }

  lemma HandleKeepsGroupNames(w: World, key: string, look: Look)
    ensures Handle(w, key, look).world.groups.Keys == w.groups.Keys
    ensures Handle(w, key, look).world.Discovered() <==> w.Discovered()
  {
    assert w.Discovered() <==> w.groups.Keys != {};
    assert Handle(w, key, look).world.Discovered() <==> Handle(w, key, look).world.groups.Keys != {};
  }

  lemma HandleLowersRank(w: World, key: string, look: Look)
    requires key in w.store && Fresh(w, key, look)
    ensures var w' := Handle(w, key, look).world;
            && key in w'.store
            && (Rank(w, key) >= 2 && Rank(w', key) < 2 ==> Rank(w', key) == 0)
            && Rank(w', key) + (if w'.store[key].code != w.store[key].code then 1 else 0) <= Rank(w, key)
            && AttemptsLeft(w', key) + (if Attempts(w, look, w.store[key]) then 1 else 0) <= AttemptsLeft(w, key)
  {
    FreshChange(w, key, look);
    HandleKeepsGroupNames(w, key, look);
  }

  lemma SameStandingSameRank(w: World, w': World, key: string)
    requires key in w.store && key in w'.store && w'.store[key] == w.store[key]
    requires w.groups.Keys <= w'.groups.Keys
    ensures Rank(w', key) <= Rank(w, key) && AttemptsLeft(w', key) <= AttemptsLeft(w, key)
  {
    assert w.Discovered() ==> w'.Discovered() by {
      if w.Discovered() {
        var g :| g in w.groups;
        assert g in w'.groups;
      }
    }
  }

  /** The run does not remove the ManagedNode under this key. */
  predicate Spares(es: seq<Event>, key: string) {
    forall i :: 0 <= i < |es| ==> es[i] != RemoveManagedNode(key)
  }

  /** How many status changes may still come: by the rank, and one for each node that waits for the key. */
  ghost function Potential(s: State, key: string): (r: nat)
    requires key in s.world.store
    ensures r >= Rank(s.world, key)
  {
    Bound(s.starting, Rank(s.world, key), |StaleFor(s.world, key)|, |WaitingFor(s.world, key)|)
  }

  function Bound(starting: bool, rank: nat, stale: nat, waiting: nat): (r: nat)
    ensures r >= rank
  {
    if starting then (if waiting > 0 && waiting + 1 > rank then waiting + 1 else rank)
    else if rank >= 2 || stale == 0 then rank + stale
    else rank + stale + 1
  }

  /** At most one predecessor's node waits for the key; once the batch is started, four nodes may. */
  ghost predicate FewWait(s: State, key: string)
    requires key in s.world.store
  {
    if s.starting then |WaitingFor(s.world, key)| <= 4 else |StaleFor(s.world, key)| <= 1
  }

  lemma WaitingMeansDiscovered(s: State, key: string)
    requires Tracked(s) && WaitingFor(s.world, key) != {}
    ensures s.world.Discovered()
  {
    var u :| u in WaitingFor(s.world, key);
    var g, i :| 0 <= i < |s.world.BatchOf(g)| && s.world.BatchOf(g)[i].uid == u;
    assert Known(s.world, g, s.world.BatchOf(g)[i]);
  }

  /** Once a group is there, no rank is above 4. */
  lemma DiscoveredRank(w: World, key: string)
    requires key in w.store && w.Discovered()
    ensures Rank(w, key) <= 4
  {
  }

  lemma StaleIsWaiting(w: World, key: string)
    requires key in w.store
    ensures StaleFor(w, key) <= WaitingFor(w, key)
    ensures |StaleFor(w, key)| ==
            |WaitingFor(w, key)| - if w.store[key].uid in WaitingFor(w, key) then 1 else 0
  {
    if w.store[key].uid !in WaitingFor(w, key) {
      assert StaleFor(w, key) == WaitingFor(w, key);
    }
  }

  lemma FewWaitBounds(s: State, key: string)
    requires Tracked(s) && key in s.world.store && FewWait(s, key)
    ensures Potential(s, key) <= 5
  {
    StaleIsWaiting(s.world, key);
    if WaitingFor(s.world, key) != {} {
      WaitingMeansDiscovered(s, key);
      DiscoveredRank(s.world, key);
    }
  }

  lemma HandleArithmetic(r: nat, after: nat, change: nat, p: nat, n: nat, m: nat)
    requires after + change <= r && change <= 1 && (r >= 2 && after < 2 ==> after == 0)
    ensures Bound(false, after, p, m) + change <= Bound(false, r, p, n)
  {
  }

  lemma HandleLowersPotential(s: State, e: Event, key: string)
    requires e.HandleKey? && Enabled(s, e) && UpToDate(s, e) && Tracked(s) && key in s.world.store && e.key == key
    ensures key in Next(s, e).world.store
    ensures Potential(Next(s, e), key) + Changed(s, e, key) <= Potential(s, key)
    ensures AttemptsLeft(Next(s, e).world, key) + Attempted(s, e, key) <= AttemptsLeft(s.world, key)
  {
    var w, w' := s.world, Next(s, e).world;
    HandleKeepsStale(w, key, e.look, key);
    HandleLowersRank(w, key, e.look);
    HandleArithmetic(Rank(w, key), Rank(w', key), Changed(s, e, key), |StaleFor(w, key)|,
                     |WaitingFor(w, key)|, |WaitingFor(w', key)|);
  }

  lemma OtherHandleKeepsPotential(s: State, e: Event, key: string)
    requires e.HandleKey? && Enabled(s, e) && UpToDate(s, e) && Tracked(s) && key in s.world.store && e.key != key
    ensures var w' := Next(s, e).world;
            && key in w'.store && w'.store[key] == s.world.store[key]
            && Potential(Next(s, e), key) <= Potential(s, key) && AttemptsLeft(w', key) <= AttemptsLeft(s.world, key)
  {
    var w, w' := s.world, Next(s, e).world;
    if e.key in w.store {
      HandleKeepsStale(w, e.key, e.look, key);
      FreshChange(w, e.key, e.look);
      HandleKeepsGroupNames(w, e.key, e.look);
      SameStandingSameRank(w, w', key);
      SameStandingSameRank(w', w, key);
    }
  }

  lemma ReportedRank(w: World, key: string)
    requires key in w.store && w.Discovered() && (w.store[key].code.Created? || w.store[key].code.CreationFailed?)
    ensures Rank(w, key) <= 1
  {
  }

  lemma ReportArithmetic(r: nat, after: nat, change: nat, p: nat, q: nat, n: nat)
    requires after <= 1 && change <= 1 && n > 0
    ensures Bound(true, after, q, n - 1) + change <= Bound(true, r, p, n)
  {
  }

  lemma OwnReportTakes(s: State, e: Event, key: string)
    requires e.ReportOne? && Enabled(s, e) && Tracked(s)
    requires s.world.BatchOf(e.group)[0].uid in WaitingFor(s.world, key)
    ensures |WaitingFor(s.world, key)| > 0
    ensures |WaitingFor(Next(s, e).world, key)| == |WaitingFor(s.world, key)| - 1
  {
    ReportTakesOne(s, e, key);
  }

  lemma OwnReportRank(s: State, e: Event, key: string)
    requires e.ReportOne? && Enabled(s, e) && UpToDate(s, e) && Tracked(s) && key in s.world.store
    requires s.world.BatchOf(e.group)[0].uid in WaitingFor(s.world, key)
    ensures var w' := Next(s, e).world;
            && w'.store == s.world.store[key := s.world.store[key].(code := ReportCode(e))]
            && Rank(w', key) <= 1 && AttemptsLeft(w', key) <= AttemptsLeft(s.world, key)
  {
    HeadWaits(s, e.group);
    ReportWrites(s, e);
    ReportPops(s, e, e.group);
    ReportedRank(Next(s, e).world, key);
  }

  lemma OwnReportLowersPotential(s: State, e: Event, key: string)
    requires e.ReportOne? && Enabled(s, e) && UpToDate(s, e) && Tracked(s) && key in s.world.store
    requires s.world.BatchOf(e.group)[0].uid in WaitingFor(s.world, key)
    ensures key in Next(s, e).world.store
    ensures Potential(Next(s, e), key) + Changed(s, e, key) <= Potential(s, key)
    ensures AttemptsLeft(Next(s, e).world, key) <= AttemptsLeft(s.world, key)
  {
    var w, w' := s.world, Next(s, e).world;
    OwnReportRank(s, e, key);
    OwnReportTakes(s, e, key);
    ReportArithmetic(Rank(w, key), Rank(w', key), Changed(s, e, key), |StaleFor(w, key)|, |StaleFor(w', key)|,
                     |WaitingFor(w, key)|);
  }

  lemma OtherReportKeepsKey(s: State, e: Event, key: string)
    requires e.ReportOne? && Enabled(s, e) && UpToDate(s, e) && Tracked(s) && key in s.world.store
    requires s.world.BatchOf(e.group)[0].uid !in WaitingFor(s.world, key)
    ensures var w' := Next(s, e).world;
            && key in w'.store && w'.store[key] == s.world.store[key] && w'.groups == s.world.groups
            && WaitingFor(w', key) == WaitingFor(s.world, key)
  {
    HeadWaits(s, e.group);
    ReportWrites(s, e);
    ReportTakesOne(s, e, key);
    ReportPops(s, e, e.group);
  }

  lemma SameWaitingSamePotential(s: State, t: State, key: string)
    requires t.starting == s.starting && key in s.world.store && key in t.world.store
    requires t.world.store[key] == s.world.store[key] && t.world.groups == s.world.groups
    requires WaitingFor(t.world, key) == WaitingFor(s.world, key)
    ensures Potential(t, key) <= Potential(s, key) && AttemptsLeft(t.world, key) <= AttemptsLeft(s.world, key)
  {
    SameStandingSameRank(s.world, t.world, key);
    SameStandingSameRank(t.world, s.world, key);
  }

  lemma OtherReportKeepsPotential(s: State, e: Event, key: string)
    requires e.ReportOne? && Enabled(s, e) && UpToDate(s, e) && Tracked(s) && key in s.world.store
    requires s.world.BatchOf(e.group)[0].uid !in WaitingFor(s.world, key)
    ensures var w' := Next(s, e).world;
            && key in w'.store && w'.store[key] == s.world.store[key]
            && WaitingFor(w', key) == WaitingFor(s.world, key)
            && Potential(Next(s, e), key) <= Potential(s, key) && AttemptsLeft(w', key) <= AttemptsLeft(s.world, key)
  {
    OtherReportKeepsKey(s, e, key);
    SameWaitingSamePotential(s, Next(s, e), key);
  }

  /** At the start of the batch, the ManagedNode's own node is one of those that wait for it. */
  lemma StartLowersPotential(s: State, key: string)
    requires !s.starting && Tracked(s) && key in s.world.store
    ensures Potential(s.(starting := true), key) <= Potential(s, key)
  {
    var w := s.world;
    var u := w.store[key].uid;
    if u in WaitingFor(w, key) {
      var g, i :| 0 <= i < |w.BatchOf(g)| && w.BatchOf(g)[i].uid == u;
      assert InCreation(w, g, w.BatchOf(g)[i]);
      assert g in w.groups;
      assert |StaleFor(w, key)| == |WaitingFor(w, key)| - 1;
    } else {
      assert StaleFor(w, key) == WaitingFor(w, key);
    }
  }

  lemma EndLowersPotential(s: State, key: string)
    requires s.starting && key in s.world.store
    ensures Potential(Next(s, NextDrain), key) <= Potential(s, key)
  {
    var w' := Next(s, NextDrain).world;
    assert StaleFor(w', key) == {};
  }

  lemma DiscoveredRankStays(w: World, w': World, key: string)
    requires key in w.store && key in w'.store && w'.store[key] == w.store[key]
    requires w.Discovered() && w.groups.Keys <= w'.groups.Keys && Rank(w, key) >= 2
    ensures Rank(w', key) >= 2
  {
    var g :| g in w.groups;
    assert g in w'.groups;
  }

  /** What the steps other than the worker's leave alone. */
  lemma OtherKeepsBatch(s: State, e: Event, key: string)
    requires Enabled(s, e) && UpToDate(s, e) && key in s.world.store && e != RemoveManagedNode(key)
    requires !e.HandleKey? && !e.ReportOne? && !e.StartBatch? && !e.NextDrain?
    ensures var t := Next(s, e);
            && t.starting == s.starting && t.world.batch == s.world.batch && t.world.uidKeys == s.world.uidKeys
            && s.world.groups.Keys <= t.world.groups.Keys
            && key in t.world.store && t.world.store[key] == s.world.store[key]
  {
  }

  lemma OtherArithmetic(starting: bool, r: nat, after: nat, p: nat, n: nat)
    requires after <= r && (p > 0 && r >= 2 ==> after >= 2)
    ensures Bound(starting, after, p, n) <= Bound(starting, r, p, n)
  {
  }

  lemma OtherLowersPotential(s: State, e: Event, key: string)
    requires Enabled(s, e) && UpToDate(s, e) && Tracked(s) && key in s.world.store && e != RemoveManagedNode(key)
    requires !e.HandleKey? && !e.ReportOne? && !e.StartBatch? && !e.NextDrain?
    ensures var w' := Next(s, e).world;
            && key in w'.store && w'.store[key] == s.world.store[key]
            && Potential(Next(s, e), key) <= Potential(s, key) && AttemptsLeft(w', key) <= AttemptsLeft(s.world, key)
  {
    OtherKeepsBatch(s, e, key);
    GrownGroupsLowerPotential(s, Next(s, e), key);
  }

  lemma GrownGroupsLowerPotential(s: State, t: State, key: string)
    requires Tracked(s) && key in s.world.store
    requires t.starting == s.starting && t.world.batch == s.world.batch && t.world.uidKeys == s.world.uidKeys
    requires s.world.groups.Keys <= t.world.groups.Keys
    requires key in t.world.store && t.world.store[key] == s.world.store[key]
    ensures Potential(t, key) <= Potential(s, key) && AttemptsLeft(t.world, key) <= AttemptsLeft(s.world, key)
  {
    var w, w' := s.world, t.world;
    SameBatchSameWaiting(w, w', key);
    SameStandingSameRank(w, w', key);
    if |StaleFor(w, key)| > 0 && Rank(w, key) >= 2 {
      StaleIsWaiting(w, key);
      WaitingMeansDiscovered(s, key);
      DiscoveredRankStays(w, w', key);
    }
    OtherArithmetic(s.starting, Rank(w, key), Rank(w', key), |StaleFor(w, key)|, |WaitingFor(w, key)|);
  }

  /** Each step lowers the potential of a key by at least its status change, and what is left of the
      attempts by the attempt. */
  lemma StepLowersPotential(s: State, e: Event, key: string)
    requires Enabled(s, e) && UpToDate(s, e) && Tracked(s) && key in s.world.store && e != RemoveManagedNode(key)
    ensures key in Next(s, e).world.store
    ensures Potential(Next(s, e), key) + Changed(s, e, key) <= Potential(s, key)
    ensures AttemptsLeft(Next(s, e).world, key) + Attempted(s, e, key) <= AttemptsLeft(s.world, key)
  {
    if e.HandleKey? && e.key == key {
      HandleLowersPotential(s, e, key);
    } else if e.HandleKey? {
      OtherHandleKeepsPotential(s, e, key);
    } else if e.ReportOne? && s.world.BatchOf(e.group)[0].uid in WaitingFor(s.world, key) {
      OwnReportLowersPotential(s, e, key);
    } else if e.ReportOne? {
      OtherReportKeepsPotential(s, e, key);
    } else if e.StartBatch? {
      StartLowersPotential(s, key);
    } else if e.NextDrain? {
      EndLowersPotential(s, key);
    } else {
      OtherLowersPotential(s, e, key);
    }
  }

  /** With an up-to-date store, however ManagedNodes are removed and created, the status changes of one that
      is kept are bounded by its potential, and it sees at most one `addManagedNode` attempt. */
  lemma {:induction false} ChangesBounded(s: State, es: seq<Event>, key: string)
    requires key in s.world.store && Tracked(s) && IsRun(s, es) && UpToDateRun(s, es) && Spares(es, key)
    ensures key in After(s, es).world.store && Tracked(After(s, es))
    ensures Changes(s, es, key) + Potential(After(s, es), key) <= Potential(s, key)
    ensures AttemptCount(s, es, key) <= AttemptsLeft(s.world, key) <= 1
    decreases |es|
  {
    if es != [] {
      StepLowersPotential(s, es[0], key);
      StepKeepsTracked(s, es[0]);
      assert Spares(es[1..], key);
      ChangesBounded(Next(s, es[0]), es[1..], key);
    }
  }

  /** So there are at most five, as long as few nodes of predecessors wait for the key at the start: none do
      when its name was not used in this round. */
  lemma AtMostFiveChanges(s: State, es: seq<Event>, key: string)
    requires key in s.world.store && Tracked(s) && FewWait(s, key)
    requires IsRun(s, es) && UpToDateRun(s, es) && Spares(es, key)
    ensures key in After(s, es).world.store
    ensures Changes(s, es, key) <= 5 && AttemptCount(s, es, key) <= 1
  {
    ChangesBounded(s, es, key);
    FewWaitBounds(s, key);
  }

  /******* Events *******/

  /** How many handlings of a run changed a status. */
  function StatusWrites(s: State, es: seq<Event>): nat
    requires IsRun(s, es)
    decreases |es|
  {
    if es == [] then 0
    else
      (if es[0].HandleKey? && Next(s, es[0]).world.store != s.world.store then 1 else 0)
      + StatusWrites(Next(s, es[0]), es[1..])
  }

  /** Over a run with an up-to-date store, the events recorded by handlings are exactly their status
      changes. */
  lemma {:induction false} EventsAreStatusWrites(s: State, es: seq<Event>)
    requires IsRun(s, es) && UpToDateRun(s, es)
    ensures After(s, es).world.events == s.world.events + StatusWrites(s, es)
    decreases |es|
  {
    if es != [] {
      if es[0].HandleKey? {
        FreshChange(s.world, es[0].key, es[0].look);
      }
      EventsAreStatusWrites(Next(s, es[0]), es[1..]);
    }
  }
}
