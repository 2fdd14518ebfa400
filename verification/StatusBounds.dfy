/**
 Runs that attain the bounds of `StatusRuns`: five status changes from the start, and more than five of a
 ManagedNode created while nodes of its predecessors wait.
 */
module StatusBounds {
  import opened Wrappers
  import A = Admission
  import opened Reconcile
  import opened ControllerRuns
  import opened StatusRuns

  /** An up-to-date run from `s` to `t` that keeps `key`, with its status changes and attempts. */
  ghost predicate Path(s: State, es: seq<Event>, t: State, key: string, changes: nat, attempts: nat) {
    && IsRun(s, es) && UpToDateRun(s, es) && Spares(es, key) && After(s, es) == t
    && Changes(s, es, key) == changes && AttemptCount(s, es, key) == attempts
  }

  lemma PathOne(s: State, e: Event, key: string)
    requires Enabled(s, e) && UpToDate(s, e) && e != RemoveManagedNode(key)
    ensures Path(s, [e], Next(s, e), key, Changed(s, e, key), Attempted(s, e, key))
  {
    assert [e][1..] == [];
    assert IsRun(Next(s, e), []) && UpToDateRun(Next(s, e), []);
  }

  lemma {:induction false} PathJoin(
    s: State, a: seq<Event>, t: State, b: seq<Event>, u: State, key: string, m: nat, i: nat, n: nat, j: nat)
    requires Path(s, a, t, key, m, i) && Path(t, b, u, key, n, j)
    ensures Path(s, a + b, u, key, m + n, i + j)
    decreases |a|
  {
    if a == [] {
      assert a + b == b;
    } else {
      assert (a + b)[1..] == a[1..] + b;
      var next := Next(s, a[0]);
      PathJoin(next, a[1..], t, b, u, key, Changes(next, a[1..], key), AttemptCount(next, a[1..], key), n, j);
    }
  }

  /** One more step. */
  lemma PathSnoc(s: State, es: seq<Event>, t: State, e: Event, key: string, n: nat, i: nat)
    requires Path(s, es, t, key, n, i) && Enabled(t, e) && UpToDate(t, e) && e != RemoveManagedNode(key)
    ensures Path(s, es + [e], Next(t, e), key, n + Changed(t, e, key), i + Attempted(t, e, key))
  {
    PathOne(t, e, key);
    PathJoin(s, es, t, [e], Next(t, e), key, n, i, Changed(t, e, key), Attempted(t, e, key));
  }

  /******* Five changes from the start *******/

  /** A step that leads to `t` with `change` status changes and `attempt` attempts for `key`. */
  predicate Leads(s: State, e: Event, t: State, key: string, change: nat, attempt: nat) {
    && Enabled(s, e) && UpToDate(s, e) && e != RemoveManagedNode(key) && Next(s, e) == t
    && Changed(s, e, key) == change && Attempted(s, e, key) == attempt
  }

  const NODE := Vm("w", "g", "u", false)

  /** The states of a run with five changes: the group appears late, the limit is reached once, the node
      is created, runs, and is deleted. */
  function Stage(i: nat): State {
    var empty, pending, node := Group(map[], map[]), Group(map["w" := NODE], map[]), Group(map[], map["w" := NODE]);
    var none: map<string, Group> := map[];
    var key := map["u" := "k"];
    if i == 0 then Standing(NeedToCreated, none, map[], map[], 0, false)
    else if i == 1 then Standing(GroupNotFound, none, key, map[], 1, false)
    else if i == 2 then Standing(GroupNotFound, map["g" := empty], key, map[], 1, false)
    else if i == 3 then Standing(NiceLimitReached, map["g" := empty], key, map[], 2, false)
    else if i == 4 then Standing(Creation, map["g" := pending], key, map["g" := [NODE]], 3, false)
    else if i == 5 then Standing(Creation, map["g" := pending], key, map["g" := [NODE]], 3, true)
    else if i == 6 then Standing(Creation, map["g" := node], key, map["g" := [NODE]], 3, true)
    else if i == 7 then Standing(Created, map["g" := node], key, map["g" := []], 3, true)
    else if i == 8 then Standing(Created, map["g" := node], map[], map[], 3, false)
    else if i == 9 then Standing(Created, map["g" := empty], map[], map[], 3, false)
    else Standing(Deleted, map["g" := empty], key, map[], 4, false)
  }

  function Standing(
    code: Code, groups: map<string, Group>, uidKeys: map<string, string>, batch: map<string, seq<Vm>>, events: nat,
    starting: bool): State
  {
    State(World(map["k" := ManagedNode("u", "g", code)], groups, uidKeys, batch, events), starting)
  }

  function HandleIn(code: Code, listing: Option<seq<A.Capacity>>, added: Option<string>): Event {
    var listed, machine := Some(ManagedNode("u", "g", code)), Some(A.Machine(1, 1));
    HandleKey("k", Look(listed, machine, map[A.NODES := 1], listing, added, false, true))
  }

  function Move(i: nat): Event {
    if i == 0 then HandleIn(NeedToCreated, None, None)
    else if i == 1 then AddGroup("g")
    else if i == 2 then HandleIn(GroupNotFound, Some([A.Capacity(1, 1)]), None)
    else if i == 3 then HandleIn(NiceLimitReached, Some([]), Some("w"))
    else if i == 4 then StartBatch
    else if i == 5 then LaunchOne(NODE, Launched)
    else if i == 6 then ReportOne("g", Fate(Launched, true, Some(ManagedNode("u", "g", Creation)), true))
    else if i == 7 then NextDrain
    else if i == 8 then Delete(NODE)
    else HandleIn(Created, None, None)
  }

  function ChangeAt(i: nat): nat { if i == 0 || i == 2 || i == 3 || i == 6 || i == 9 then 1 else 0 }

  function AttemptAt(i: nat): nat { if i == 3 then 1 else 0 }

  lemma RegisteringDecides()
    ensures var look := Move(3).look; Decide(Stage(3).world, look, look.listed.value) == Register(NODE)
  {
  }

  lemma RegisteringGroups()
    ensures Next(Stage(3), Move(3)).world.groups == Stage(4).world.groups
  {
    RegisteringDecides();
  }

  lemma RegisteringBatch()
    ensures var w := Next(Stage(3), Move(3)).world; w.batch == map["g" := [NODE]] && w.uidKeys == map["u" := "k"]
  {
    RegisteringDecides();
    assert [] + [NODE] == [NODE];
  }

  lemma RegisteringStatus()
    ensures var w := Next(Stage(3), Move(3)).world; w.store == Stage(4).world.store && w.events == 3
  {
    RegisteringDecides();
  }

  lemma RegisteringNext()
    ensures Enabled(Stage(3), Move(3)) && Next(Stage(3), Move(3)) == Stage(4)
  {
    RegisteringGroups();
    RegisteringBatch();
    RegisteringStatus();
  }

  lemma RegisteringStage()
    ensures Leads(Stage(3), Move(3), Stage(4), "k", 1, 1)
  {
    RegisteringNext();
  }

  lemma EarlyStageLeads(i: nat)
    requires i < 5
    ensures Leads(Stage(i), Move(i), Stage(i + 1), "k", ChangeAt(i), AttemptAt(i))
  {
    if i == 3 {
      RegisteringStage();
    }
  }

  lemma MiddleStageLeads(i: nat)
    requires 5 <= i < 8
    ensures Leads(Stage(i), Move(i), Stage(i + 1), "k", ChangeAt(i), AttemptAt(i))
  {
  }

  lemma LateStageLeads(i: nat)
    requires 8 <= i < 10
    ensures Leads(Stage(i), Move(i), Stage(i + 1), "k", ChangeAt(i), AttemptAt(i))
  {
  }

  function Sum(f: nat -> nat, i: nat, n: nat): nat
    requires i <= n
    decreases n - i
  {
    if i == n then 0 else f(i) + Sum(f, i + 1, n)
  }

  lemma {:induction false} RunAlong(
    stage: nat -> State, move: nat -> Event, key: string, change: nat -> nat, attempt: nat -> nat, i: nat, n: nat)
    returns (es: seq<Event>)
    requires i <= n
    requires forall k :: i <= k < n ==> Leads(stage(k), move(k), stage(k + 1), key, change(k), attempt(k))
    ensures Path(stage(i), es, stage(n), key, Sum(change, i, n), Sum(attempt, i, n))
    decreases n - i
  {
    es := [];
    if i < n {
      es := RunAlong(stage, move, key, change, attempt, i + 1, n);
      PathOne(stage(i), move(i), key);
      PathJoin(stage(i), [move(i)], stage(i + 1), es, stage(n), key,
               change(i), attempt(i), Sum(change, i + 1, n), Sum(attempt, i + 1, n));
      es := [move(i)] + es;
    }
  }

  lemma StageZero()
    ensures var s := Stage(0); Initial(s) && Tracked(s) && "k" in s.world.store && FewWait(s, "k")
  {
    assert WaitingFor(Stage(0).world, "k") == {};
  }

  /** Both bounds are attained, from the start. */
  lemma FiveChangesAttained() returns (s: State, es: seq<Event>, t: State)
    ensures Initial(s) && Tracked(s) && "k" in s.world.store && FewWait(s, "k")
    ensures Path(s, es, t, "k", 5, 1)
  {
    s, t := Stage(0), Stage(10);
    forall i: nat | i < 10 ensures Leads(Stage(i), Move(i), Stage(i + 1), "k", ChangeAt(i), AttemptAt(i)) {
      if i < 5 { EarlyStageLeads(i); } else if i < 8 { MiddleStageLeads(i); } else { LateStageLeads(i); }
    }
    es := RunAlong(Stage, Move, "k", ChangeAt, AttemptAt, 0, 10);
    FiveInAll();
    StageZero();
  }

  lemma FiveInAll()
    ensures Sum(ChangeAt, 0, 10) == 5 && Sum(AttemptAt, 0, 10) == 1
  {
    assert Sum(ChangeAt, 8, 10) == 1 && Sum(AttemptAt, 8, 10) == 0;
    assert Sum(ChangeAt, 6, 10) == 2 && Sum(AttemptAt, 6, 10) == 0;
    assert Sum(ChangeAt, 4, 10) == 2 && Sum(AttemptAt, 4, 10) == 0;
    assert Sum(ChangeAt, 2, 10) == 4 && Sum(AttemptAt, 2, 10) == 1;
  }

  /******* No bound when node groups are removed *******/

  predicate InformedRun(s: State, es: seq<Event>)
    requires IsRun(s, es)
    decreases |es|
  {
    es == [] || (Informed(s, es[0]) && InformedRun(Next(s, es[0]), es[1..]))
  }

  predicate InformedPath(s: State, es: seq<Event>, key: string, changes: nat) {
    IsRun(s, es) && InformedRun(s, es) && Spares(es, key) && Changes(s, es, key) == changes
  }

  /** A step that leads to `t`, in front of a run. */
  lemma Prepend(s: State, e: Event, t: State, es: seq<Event>, key: string, n: nat)
    requires Enabled(s, e) && Informed(s, e) && e != RemoveManagedNode(key) && Next(s, e) == t
    requires InformedPath(t, es, key, n)
    ensures InformedPath(s, [e] + es, key, Changed(s, e, key) + n)
  {
    assert ([e] + es)[1..] == es;
  }

  /** The ManagedNode of `Stage`, while the only group is there or not. */
  function Alone(code: Code, present: bool, events: nat): State {
    Standing(code, if present then map["g" := Group(map[], map[])] else map[], map["u" := "k"], map[], events, false)
  }

  lemma GroupGoes(events: nat)
    ensures var s, t := Alone(NiceLimitReached, true, events), Alone(NiceLimitReached, false, events);
            var e, u := HandleIn(NiceLimitReached, None, None), Alone(GroupNotFound, false, events + 1);
            && Enabled(s, RemoveGroup("g")) && Informed(s, RemoveGroup("g")) && Next(s, RemoveGroup("g")) == t
            && Changed(s, RemoveGroup("g"), "k") == 0
            && Enabled(t, e) && Informed(t, e) && Next(t, e) == u && Changed(t, e, "k") == 1
  {
  }

  lemma GroupReturns(events: nat)
    ensures var s, t := Alone(GroupNotFound, false, events), Alone(GroupNotFound, true, events);
            var e, u := HandleIn(GroupNotFound, Some([A.Capacity(1, 1)]), None),
                        Alone(NiceLimitReached, true, events + 1);
            && Enabled(s, AddGroup("g")) && Informed(s, AddGroup("g")) && Next(s, AddGroup("g")) == t
            && Changed(s, AddGroup("g"), "k") == 0
            && Enabled(t, e) && Informed(t, e) && Next(t, e) == u && Changed(t, e, "k") == 1
  {
  }

  lemma {:induction false} GroupGoesAndReturns(events: nat, n: nat) returns (es: seq<Event>)
    ensures InformedPath(Alone(NiceLimitReached, true, events), es, "k", 2 * n)
    decreases n
  {
    es := [];
    if n > 0 {
      es := GroupGoesAndReturns(events + 2, n - 1);
      GroupReturns(events + 1);
      var e := HandleIn(GroupNotFound, Some([A.Capacity(1, 1)]), None);
      Prepend(Alone(GroupNotFound, true, events + 1), e, Alone(NiceLimitReached, true, events + 2), es, "k",
              2 * n - 2);
      es := [e] + es;
      Prepend(Alone(GroupNotFound, false, events + 1), AddGroup("g"), Alone(GroupNotFound, true, events + 1), es,
              "k", 2 * n - 1);
      es := [AddGroup("g")] + es;
      GroupGoes(events);
      e := HandleIn(NiceLimitReached, None, None);
      Prepend(Alone(NiceLimitReached, false, events), e, Alone(GroupNotFound, false, events + 1), es, "k",
              2 * n - 1);
      es := [e] + es;
      Prepend(Alone(NiceLimitReached, true, events), RemoveGroup("g"), Alone(NiceLimitReached, false, events), es,
              "k", 2 * n);
      es := [RemoveGroup("g")] + es;
    }
  }

  lemma StagePrepend(i: nat, es: seq<Event>, n: nat)
    requires i < 3 && InformedPath(Stage(i + 1), es, "k", n)
    ensures InformedPath(Stage(i), [Move(i)] + es, "k", ChangeAt(i) + n)
  {
    EarlyStageLeads(i);
    Prepend(Stage(i), Move(i), Stage(i + 1), es, "k", n);
  }

  /** When the only node group may be removed and added again, no number bounds the status changes of a
      ManagedNode, with an up-to-date store. */
  lemma NoBoundWhenGroupsGo(n: nat) returns (s: State, es: seq<Event>)
    ensures Initial(s) && Tracked(s) && "k" in s.world.store && FewWait(s, "k")
    ensures InformedPath(s, es, "k", 2 * n + 2)
  {
    StageZero();
    es := GroupGoesAndReturns(2, n);
    assert Stage(3) == Alone(NiceLimitReached, true, 2);
    StagePrepend(2, es, 2 * n);
    es := [Move(2)] + es;
    StagePrepend(1, es, 2 * n + 1);
    es := [Move(1)] + es;
    StagePrepend(0, es, 2 * n + 1);
    s, es := Stage(0), [Move(0)] + es;
  }

  /******* Reports that keep changing a status *******/

  /** The code the report of the first of `n` waiting nodes writes, so that each of them changes the code
      and the last one leaves it Created. */
  function Target(n: nat): Code { if n % 2 == 1 then Created else CreationFailed }

  ghost predicate Ready(s: State, key: string) {
    && s.starting && Tracked(s) && key in s.world.store
    && (WaitingFor(s.world, key) != {} ==> s.world.store[key].code != Target(|WaitingFor(s.world, key)|))
  }

  /** What reports leave alone of a ManagedNode and of the groups. */
  predicate SameSetting(s: State, t: State, key: string)
    requires key in s.world.store
  {
    && t.world.groups == s.world.groups && t.world.uidKeys == s.world.uidKeys
    && key in t.world.store
    && t.world.store[key] == s.world.store[key].(code := t.world.store[key].code)
  }

  /** From `s` to `t` the nodes that no longer wait have each changed the code. */
  ghost predicate Flipped(s: State, t: State, key: string)
    requires key in s.world.store
  {
    && SameSetting(s, t, key)
    && WaitingFor(t.world, key) <= WaitingFor(s.world, key)
    && |WaitingFor(t.world, key)| <= |WaitingFor(s.world, key)|
    && t.world.store[key].code ==
       if WaitingFor(t.world, key) == WaitingFor(s.world, key) then s.world.store[key].code
       else Target(|WaitingFor(t.world, key)| + 1)
  }

  function Flip(g: string, n: nat): Event {
    ReportOne(g, Fate(NotReady, n % 2 == 1, Some(ManagedNode("", "", Creation)), true))
  }

  lemma FlipPops(s: State, key: string, g: string)
    requires Ready(s, key) && s.world.BatchOf(g) != []
    ensures var e := Flip(g, |WaitingFor(s.world, key)|);
            && Enabled(s, e) && UpToDate(s, e) && Tracked(Next(s, e)) && Next(s, e).starting
            && forall h :: Next(s, e).world.BatchOf(h) == if h == g then s.world.BatchOf(h)[1..] else s.world.BatchOf(h)
  {
    var e := Flip(g, |WaitingFor(s.world, key)|);
    StepKeepsTracked(s, e);
    forall h ensures Next(s, e).world.BatchOf(h) == if h == g then s.world.BatchOf(h)[1..] else s.world.BatchOf(h) {
      ReportPops(s, e, h);
    }
  }

  /** What a flip of a node that waits for the key leaves. */
  lemma FlipTakes(s: State, key: string, g: string)
    requires Ready(s, key) && s.world.BatchOf(g) != [] && s.world.BatchOf(g)[0].uid in WaitingFor(s.world, key)
    ensures var n := |WaitingFor(s.world, key)|;
            var e := Flip(g, n);
            && n > 0 && Enabled(s, e)
            && WaitingFor(Next(s, e).world, key) == WaitingFor(s.world, key) - {s.world.BatchOf(g)[0].uid}
            && |WaitingFor(Next(s, e).world, key)| == n - 1
  {
    var e := Flip(g, |WaitingFor(s.world, key)|);
    ReportTakesOne(s, e, key);
    OwnReportTakes(s, e, key);
  }

  lemma FlipWrites(s: State, key: string, g: string)
    requires Ready(s, key) && s.world.BatchOf(g) != [] && s.world.BatchOf(g)[0].uid in WaitingFor(s.world, key)
    ensures var n := |WaitingFor(s.world, key)|;
            var e := Flip(g, n);
            && Enabled(s, e) && UpToDate(s, e) && SameSetting(s, Next(s, e), key)
            && Next(s, e).world.store[key].code == Target(n) && Changed(s, e, key) == 1
  {
    var e := Flip(g, |WaitingFor(s.world, key)|);
    ReportPops(s, e, g);
    OwnReportRank(s, e, key);
  }

  lemma OneFlipped(s: State, t: State, key: string, u: string)
    requires key in s.world.store && t.starting && Tracked(t) && SameSetting(s, t, key)
    requires u in WaitingFor(s.world, key) && WaitingFor(t.world, key) == WaitingFor(s.world, key) - {u}
    requires |WaitingFor(t.world, key)| == |WaitingFor(s.world, key)| - 1
    requires t.world.store[key].code == Target(|WaitingFor(s.world, key)|)
    ensures Ready(t, key) && Flipped(s, t, key)
  {
    TargetsDiffer(|WaitingFor(t.world, key)|);
    assert u !in WaitingFor(t.world, key);
    assert Flipped(s, t, key);
  }

  lemma TargetsDiffer(n: nat)
    ensures Target(n) != Target(n + 1)
  {
  }

  lemma FlipOwn(s: State, key: string, g: string)
    requires Ready(s, key) && s.world.BatchOf(g) != [] && s.world.BatchOf(g)[0].uid in WaitingFor(s.world, key)
    ensures var n := |WaitingFor(s.world, key)|;
            var e := Flip(g, n);
            && Enabled(s, e) && UpToDate(s, e) && Ready(Next(s, e), key) && Flipped(s, Next(s, e), key)
            && |WaitingFor(Next(s, e).world, key)| == n - 1 && Changed(s, e, key) == 1
  {
    var e := Flip(g, |WaitingFor(s.world, key)|);
    FlipTakes(s, key, g);
    FlipWrites(s, key, g);
    StepKeepsTracked(s, e);
    OneFlipped(s, Next(s, e), key, s.world.BatchOf(g)[0].uid);
  }

  lemma FlipOther(s: State, key: string, g: string)
    requires Ready(s, key) && s.world.BatchOf(g) != [] && s.world.BatchOf(g)[0].uid !in WaitingFor(s.world, key)
    ensures var e := Flip(g, |WaitingFor(s.world, key)|);
            && Enabled(s, e) && UpToDate(s, e) && Ready(Next(s, e), key) && Flipped(s, Next(s, e), key)
            && WaitingFor(Next(s, e).world, key) == WaitingFor(s.world, key) && Changed(s, e, key) == 0
  {
    var e := Flip(g, |WaitingFor(s.world, key)|);
    FlipPops(s, key, g);
    ReportPops(s, e, g);
    OtherReportKeepsPotential(s, e, key);
  }

  lemma FlipOne(s: State, key: string, g: string)
    requires Ready(s, key) && s.world.BatchOf(g) != []
    ensures var n := |WaitingFor(s.world, key)|;
            var e := Flip(g, n);
            && Enabled(s, e) && UpToDate(s, e) && Ready(Next(s, e), key) && Flipped(s, Next(s, e), key)
            && |WaitingFor(Next(s, e).world, key)| + Changed(s, e, key) == n
  {
    if s.world.BatchOf(g)[0].uid in WaitingFor(s.world, key) {
      FlipOwn(s, key, g);
    } else {
      FlipOther(s, key, g);
    }
  }

  /** Both ends ready, with a run between them in which each node that waits no more changed the code. */
  ghost predicate FlipRun(s: State, es: seq<Event>, t: State, key: string)
    requires key in s.world.store
  {
    && Ready(t, key) && Flipped(s, t, key)
    && Path(s, es, t, key, |WaitingFor(s.world, key)| - |WaitingFor(t.world, key)|, 0)
  }

  /** Reporting the first node of a group. */
  lemma FlipStep(s: State, key: string, g: string) returns (es: seq<Event>, t: State)
    requires Ready(s, key) && s.world.BatchOf(g) != []
    ensures FlipRun(s, es, t, key)
    ensures forall h :: t.world.BatchOf(h) == if h == g then s.world.BatchOf(h)[1..] else s.world.BatchOf(h)
  {
    FlipOne(s, key, g);
    FlipPops(s, key, g);
    var e := Flip(g, |WaitingFor(s.world, key)|);
    PathOne(s, e, key);
    es, t := [e], Next(s, e);
  }

  lemma FlipNone(s: State, key: string)
    requires Ready(s, key)
    ensures FlipRun(s, [], s, key)
  {
  }

  lemma FlipJoin(s: State, a: seq<Event>, t: State, b: seq<Event>, u: State, key: string)
    requires Ready(s, key) && FlipRun(s, a, t, key) && FlipRun(t, b, u, key)
    ensures FlipRun(s, a + b, u, key)
  {
    var n, m, k := |WaitingFor(s.world, key)|, |WaitingFor(t.world, key)|, |WaitingFor(u.world, key)|;
    PathJoin(s, a, t, b, u, key, n - m, 0, m - k, 0);
    FlippedTwice(s, t, u, key);
  }

  /** Reporting all nodes of a group. */
  lemma {:induction false} FlipGroup(s: State, key: string, g: string) returns (es: seq<Event>, t: State)
    requires Ready(s, key)
    ensures FlipRun(s, es, t, key)
    ensures forall h :: t.world.BatchOf(h) == if h == g then [] else s.world.BatchOf(h)
    decreases |s.world.BatchOf(g)|
  {
    es, t := [], s;
    if s.world.BatchOf(g) == [] {
      FlipNone(s, key);
    } else {
      var next, rest;
      es, next := FlipStep(s, key, g);
      rest, t := FlipGroup(next, key, g);
      FlipJoin(s, es, next, rest, t, key);
      es := es + rest;
    }
  }

  lemma FlippedTwice(s: State, t: State, u: State, key: string)
    requires key in s.world.store && Flipped(s, t, key) && Flipped(t, u, key)
    ensures Flipped(s, u, key)
  {
    if WaitingFor(u.world, key) == WaitingFor(s.world, key) {
      assert WaitingFor(t.world, key) == WaitingFor(s.world, key);
    }
  }

  lemma SmallerSet<T>(a: set<T>, b: set<T>, x: T)
    requires a <= b && x in b && x !in a
    ensures |a| < |b|
  {
    assert a <= b - {x};
    SubsetSize(a, b - {x});
  }

  lemma {:induction false} SubsetSize<T>(a: set<T>, b: set<T>)
    requires a <= b
    ensures |a| <= |b|
  {
    if a != {} {
      var x :| x in a;
      SubsetSize(a - {x}, b - {x});
    }
  }

  /** A node that waits in an emptied group waits no more. */
  lemma EmptiedGroup(s: State, t: State, key: string, g: string, i: nat)
    requires EntriesDistinct(s.world) && i < |s.world.BatchOf(g)|
    requires forall h :: t.world.BatchOf(h) == if h == g then [] else s.world.BatchOf(h)
    ensures s.world.BatchOf(g)[i].uid !in WaitingFor(t.world, key)
  {
    var u := s.world.BatchOf(g)[i].uid;
    forall h, j | 0 <= j < |t.world.BatchOf(h)| ensures t.world.BatchOf(h)[j].uid != u {
      assert t.world.BatchOf(h)[j] == s.world.BatchOf(h)[j];
    }
  }

  /** Reporting a group in which a node waits for the key. */
  lemma FlipSome(s: State, key: string) returns (es: seq<Event>, t: State)
    requires Ready(s, key) && WaitingFor(s.world, key) != {}
    ensures FlipRun(s, es, t, key) && |WaitingFor(t.world, key)| < |WaitingFor(s.world, key)|
  {
    var u :| u in WaitingFor(s.world, key);
    var g, i :| 0 <= i < |s.world.BatchOf(g)| && s.world.BatchOf(g)[i].uid == u;
    es, t := FlipGroup(s, key, g);
    EmptiedGroup(s, t, key, g, i);
    SmallerSet(WaitingFor(t.world, key), WaitingFor(s.world, key), u);
  }

  /** Reporting until no node waits for the key: each of them changes its code. */
  lemma {:induction false} FlipAll(s: State, key: string) returns (es: seq<Event>, t: State)
    requires Ready(s, key)
    ensures Ready(t, key) && SameSetting(s, t, key) && WaitingFor(t.world, key) == {}
    ensures Path(s, es, t, key, |WaitingFor(s.world, key)|, 0)
    ensures if WaitingFor(s.world, key) != {} then t.world.store[key].code == Created else t == s
    decreases |WaitingFor(s.world, key)|
  {
    es, t := [], s;
    if WaitingFor(s.world, key) != {} {
      var next, rest;
      es, next := FlipSome(s, key);
      rest, t := FlipAll(next, key);
      FlipEnd(s, next, t, key);
      PathJoin(s, es, next, rest, t, key, |WaitingFor(s.world, key)| - |WaitingFor(next.world, key)|, 0,
               |WaitingFor(next.world, key)|, 0);
      es := es + rest;
    }
  }

  lemma FlipEnd(s: State, next: State, t: State, key: string)
    requires key in s.world.store && Flipped(s, next, key)
    requires |WaitingFor(next.world, key)| < |WaitingFor(s.world, key)|
    requires SameSetting(next, t, key)
    requires WaitingFor(next.world, key) != {} ==> t.world.store[key].code == Created
    requires WaitingFor(next.world, key) == {} ==> t == next
    ensures SameSetting(s, t, key) && t.world.store[key].code == Created
  {
  }

  /******* More than five changes *******/

  /** A ManagedNode that was just created, in a group that has no node for it. */
  predicate JustCreated(s: State, key: string) {
    && key in s.world.store && s.world.store[key].code.NeedToCreated?
    && s.world.store[key].group in s.world.groups
    && !s.world.groups[s.world.store[key].group].HasUid(s.world.store[key].uid)
  }

  function Looking(mn: ManagedNode, listing: seq<A.Capacity>, added: Option<string>): Look {
    Look(Some(mn), Some(A.Machine(1, 1)), map[A.NODES := 1], Some(listing), added, false, true)
  }

  /** A ManagedNode in status Created without a node becomes Deleted. */
  lemma CreatedBecomesDeleted(s: State, key: string)
    requires !s.starting && key in s.world.store && s.world.store[key].code.Created?
    requires s.world.store[key].group in s.world.groups
    requires !s.world.groups[s.world.store[key].group].HasUid(s.world.store[key].uid)
    ensures var e := HandleKey(key, Looking(s.world.store[key], [], None));
            && Enabled(s, e) && UpToDate(s, e) && Changed(s, e, key) == 1 && Attempted(s, e, key) == 0
            && key in Next(s, e).world.store && Next(s, e).world.store[key].code == Deleted
  {
  }

  /** A ManagedNode created under a name whose predecessors' nodes are being started is marked Created, and
      then Deleted, without an attempt to create a node for it. */
  lemma MarkedWithoutNode(s: State, key: string) returns (es: seq<Event>, t: State)
    requires s.starting && Tracked(s) && JustCreated(s, key) && WaitingFor(s.world, key) != {}
    ensures Path(s, es, t, key, |WaitingFor(s.world, key)| + 1, 0)
    ensures key in t.world.store && t.world.store[key].code == Deleted
  {
    var n := |WaitingFor(s.world, key)|;
    es, t := FlipAll(s, key);
    PathSnoc(s, es, t, NextDrain, key, n, 0);
    es, t := es + [NextDrain], Next(t, NextDrain);
    CreatedBecomesDeleted(t, key);
    var e := HandleKey(key, Looking(t.world.store[key], [], None));
    PathSnoc(s, es, t, e, key, n, 0);
    es, t := es + [e], Next(t, e);
  }

  /** The limit is reached once. */
  lemma LimitStep(s: State, key: string)
    requires !s.starting && JustCreated(s, key)
    ensures var e := HandleKey(key, Looking(s.world.store[key], [A.Capacity(1, 1)], None));
            && Enabled(s, e) && UpToDate(s, e) && Changed(s, e, key) == 1 && Attempted(s, e, key) == 0
            && !Next(s, e).starting && Next(s, e).world.groups == s.world.groups
            && key in Next(s, e).world.store
            && Next(s, e).world.store[key] == s.world.store[key].(code := NiceLimitReached)
  {
    assert A.Cores([A.Capacity(1, 1)]) >= 0;
  }

  function NewNode(mn: ManagedNode): Vm { Vm("w", mn.group, mn.uid, false) }

  lemma RegisterStep(s: State, key: string)
    requires !s.starting && key in s.world.store && s.world.store[key].code.NiceLimitReached?
    requires s.world.store[key].group in s.world.groups
    requires !s.world.groups[s.world.store[key].group].HasUid(s.world.store[key].uid)
    ensures var mn := s.world.store[key];
            var e := HandleKey(key, Looking(mn, [], Some("w")));
            var w' := Next(s, e).world;
            var g := s.world.groups[mn.group];
            && Enabled(s, e) && UpToDate(s, e) && Changed(s, e, key) == 1 && Attempted(s, e, key) == 1
            && Decide(s.world, e.look, mn) == Register(NewNode(mn)) && !Next(s, e).starting
            && w'.groups == s.world.groups[mn.group := Group(g.pending["w" := NewNode(mn)], g.nodes)]
            && key in w'.store && w'.store[key] == mn.(code := Creation)
  {
    assert A.Cores([]) == 0 && A.Memory([]) == 0;
  }

  /** After the registration the own node waits beside those of the predecessors. */
  lemma OwnNodeWaits(s: State, key: string)
    requires Tracked(s) && !s.starting && key in s.world.store && s.world.store[key].code.NiceLimitReached?
    requires s.world.store[key].group in s.world.groups
    requires !s.world.groups[s.world.store[key].group].HasUid(s.world.store[key].uid)
    ensures var e := HandleKey(key, Looking(s.world.store[key], [], Some("w")));
            && Enabled(s, e) && key in Next(s, e).world.store
            && |WaitingFor(Next(s, e).world, key)| == |StaleFor(s.world, key)| + 1
  {
    var mn := s.world.store[key];
    var look := Looking(mn, [], Some("w"));
    var w' := Next(s, HandleKey(key, look)).world;
    RegisterStep(s, key);
    HandleExtendsBatch(s.world, key, look, mn.group);
    HandleKeepsUidKeys(s.world, key, look);
    HandleKeepsStale(s.world, key, look, key);
    assert w'.BatchOf(mn.group)[|s.world.BatchOf(mn.group)|].uid == mn.uid;
    assert mn.uid in WaitingFor(w', key);
    StaleIsWaiting(w', key);
  }

  /** Once its node is deleted, the group has none for the ManagedNode. */
  lemma DeletedNodeIsGone(s: State, mn: ManagedNode, before: Group)
    requires mn.group in s.world.groups && !before.HasUid(mn.uid)
    requires s.world.groups[mn.group] == Group(before.pending["w" := NewNode(mn)], before.nodes)
    ensures Enabled(s, Delete(NewNode(mn)))
    ensures var t := Next(s, Delete(NewNode(mn)));
            && t.world.store == s.world.store && t.starting == s.starting
            && mn.group in t.world.groups && !t.world.groups[mn.group].HasUid(mn.uid)
  {
  }

  lemma LimitAndRegister(s: State, key: string) returns (es: seq<Event>, t: State)
    requires !s.starting && Tracked(s) && JustCreated(s, key)
    ensures Path(s, es, t, key, 2, 1) && !t.starting && Tracked(t)
    ensures key in t.world.store && t.world.store[key] == s.world.store[key].(code := Creation)
    ensures |WaitingFor(t.world, key)| == |StaleFor(s.world, key)| + 1
    ensures var mn := s.world.store[key];
            var g := s.world.groups[mn.group];
            t.world.groups == s.world.groups[mn.group := Group(g.pending["w" := NewNode(mn)], g.nodes)]
  {
    var mn := s.world.store[key];
    var limit := HandleKey(key, Looking(mn, [A.Capacity(1, 1)], None));
    LimitStep(s, key);
    StepKeepsTracked(s, limit);
    HandleKeepsStale(s.world, key, limit.look, key);
    PathOne(s, limit, key);
    es, t := [limit], Next(s, limit);
    var register := HandleKey(key, Looking(t.world.store[key], [], Some("w")));
    RegisterStep(t, key);
    OwnNodeWaits(t, key);
    StepKeepsTracked(t, register);
    PathSnoc(s, es, t, register, key, 1, 0);
    es, t := es + [register], Next(t, register);
  }

  lemma StartAndFlip(s: State, key: string) returns (es: seq<Event>, t: State)
    requires !s.starting && Tracked(s) && key in s.world.store && s.world.store[key].code.Creation?
    requires WaitingFor(s.world, key) != {}
    ensures Path(s, es, t, key, |WaitingFor(s.world, key)|, 0) && t.starting
    ensures SameSetting(s, t, key) && t.world.store[key].code == Created
  {
    StepKeepsTracked(s, StartBatch);
    PathOne(s, StartBatch, key);
    var next := Next(s, StartBatch);
    var rest;
    rest, t := FlipAll(next, key);
    PathJoin(s, [StartBatch], next, rest, t, key, 0, 0, |WaitingFor(s.world, key)|, 0);
    es := [StartBatch] + rest;
  }

  lemma EndAndDelete(s: State, key: string, before: Group) returns (es: seq<Event>, t: State)
    requires s.starting && key in s.world.store && s.world.store[key].code == Created
    requires var mn := s.world.store[key];
             && mn.group in s.world.groups && !before.HasUid(mn.uid)
             && s.world.groups[mn.group] == Group(before.pending["w" := NewNode(mn)], before.nodes)
    ensures Path(s, es, t, key, 1, 0)
  {
    var mn := s.world.store[key];
    PathOne(s, NextDrain, key);
    es, t := [NextDrain], Next(s, NextDrain);
    DeletedNodeIsGone(t, mn, before);
    PathSnoc(s, es, t, Delete(NewNode(mn)), key, 0, 0);
    es, t := es + [Delete(NewNode(mn))], Next(t, Delete(NewNode(mn)));
    CreatedBecomesDeleted(t, key);
    var gone := HandleKey(key, Looking(mn, [], None));
    PathSnoc(s, es, t, gone, key, 0, 0);
    es, t := es + [gone], Next(t, gone);
  }

  /** A ManagedNode created while `p` nodes of predecessors wait: limit, registration, `p + 1` reports, and
      the deletion of its node. */
  lemma CreatedAmongWaiting(s: State, key: string) returns (es: seq<Event>, t: State)
    requires !s.starting && Tracked(s) && JustCreated(s, key)
    ensures Path(s, es, t, key, |StaleFor(s.world, key)| + 4, 1)
  {
    var p := |StaleFor(s.world, key)|;
    var first, u := LimitAndRegister(s, key);
    var second, v := StartAndFlip(u, key);
    PathJoin(s, first, u, second, v, key, 2, 1, p + 1, 0);
    var third;
    third, t := EndAndDelete(v, key, s.world.groups[s.world.store[key].group]);
    PathJoin(s, first + second, v, third, t, key, p + 3, 1, 1, 0);
    es := first + second + third;
  }

  /** Some up-to-date run that keeps the ManagedNode changes its status more than five times. */
  ghost predicate Exceeds(s: State, key: string) {
    exists es :: IsRun(s, es) && UpToDateRun(s, es) && Spares(es, key) && Changes(s, es, key) > 5
  }

  /** The bound of five fails for a ManagedNode just created iff two nodes of predecessors, or once the batch is
      started five, still wait for its key. */
  lemma MoreThanFiveIff(s: State, key: string)
    requires Tracked(s) && JustCreated(s, key)
    ensures Exceeds(s, key) <==> !FewWait(s, key)
  {
    if FewWait(s, key) {
      forall es | IsRun(s, es) && UpToDateRun(s, es) && Spares(es, key) ensures Changes(s, es, key) <= 5 {
        AtMostFiveChanges(s, es, key);
      }
    } else if s.starting {
      var es, t := MarkedWithoutNode(s, key);
    } else {
      var es, t := CreatedAmongWaiting(s, key);
    }
  }

  /******* It happens *******/

  /** A ManagedNode is created, registered and removed; its node goes on waiting. */
  lemma CreatedAndRemoved(s: State, u: string, name: string) returns (es: seq<Event>, t: State)
    requires !s.starting && Tracked(s) && s.world.store == map[] && u !in s.world.uidKeys
    requires "g" in s.world.groups && !s.world.groups["g"].HasUid(u)
    ensures Path(s, es, t, "", 0, 0) && !t.starting && Tracked(t) && t.world.store == map[]
    ensures "g" in t.world.groups && t.world.uidKeys == s.world.uidKeys[u := "k"]
    ensures t.world.groups["g"].pending == s.world.groups["g"].pending[name := Vm(name, "g", u, false)]
    ensures t.world.groups["g"].nodes == s.world.groups["g"].nodes
    ensures t.world.BatchOf("g") == s.world.BatchOf("g") + [Vm(name, "g", u, false)]
  {
    var mn := ManagedNode(u, "g", NeedToCreated);
    var add, handle := AddManagedNode("k", mn), HandleKey("k", Adding(mn, name));
    PathOne(s, add, "");
    StepKeepsTracked(s, add);
    es, t := [add], Next(s, add);
    AddingRegisters(t.world, "k", mn, name);
    StepKeepsTracked(t, handle);
    HandleKeepsUidKeys(t.world, "k", handle.look);
    PathSnoc(s, es, t, handle, "", 0, 0);
    FreshChange(t.world, "k", handle.look);
    es, t := es + [handle], Next(t, handle);
    PathSnoc(s, es, t, RemoveManagedNode("k"), "", 0, 0);
    StepKeepsTracked(t, RemoveManagedNode("k"));
    es, t := es + [RemoveManagedNode("k")], Next(t, RemoveManagedNode("k"));
  }

  lemma TwoPredecessors() returns (s: State, es: seq<Event>, t: State)
    ensures Initial(s) && Tracked(s) && Path(s, es, t, "", 0, 0)
    ensures !t.starting && Tracked(t) && t.world.store == map[] && t.world.uidKeys == map["u1" := "k", "u2" := "k"]
    ensures t.world.BatchOf("g") == [Vm("w1", "g", "u1", false), Vm("w2", "g", "u2", false)]
    ensures "g" in t.world.groups && !t.world.groups["g"].HasUid("u3")
  {
    s := State(World(map[], map[], map[], map[], 0), false);
    PathOne(s, AddGroup("g"), "");
    StepKeepsTracked(s, AddGroup("g"));
    var u := Next(s, AddGroup("g"));
    var first, v := CreatedAndRemoved(u, "u1", "w1");
    PathJoin(s, [AddGroup("g")], u, first, v, "", 0, 0, 0, 0);
    var second;
    second, t := CreatedAndRemoved(v, "u2", "w2");
    PathJoin(s, [AddGroup("g")] + first, v, second, t, "", 0, 0, 0, 0);
    es := [AddGroup("g")] + first + second;
  }

  /** From the start an up-to-date run leads to a ManagedNode just created whose status can change more than
      five times: its name was used twice before in this round. */
  lemma SixChangesFromStart() returns (s: State, es: seq<Event>, t: State)
    ensures Initial(s) && Tracked(s) && Path(s, es, t, "", 0, 0)
    ensures JustCreated(t, "k") && Tracked(t) && Exceeds(t, "k")
  {
    var u;
    s, es, u := TwoPredecessors();
    var add := AddManagedNode("k", ManagedNode("u3", "g", NeedToCreated));
    PathSnoc(s, es, u, add, "", 0, 0);
    StepKeepsTracked(u, add);
    es, t := es + [add], Next(u, add);
    TwoWait(t);
    MoreThanFiveIff(t, "k");
  }

  lemma TwoWait(s: State)
    requires !s.starting && "k" in s.world.store && s.world.store["k"].uid == "u3"
    requires s.world.uidKeys == map["u1" := "k", "u2" := "k"]
    requires s.world.BatchOf("g") == [Vm("w1", "g", "u1", false), Vm("w2", "g", "u2", false)]
    ensures !FewWait(s, "k")
  {
    assert s.world.BatchOf("g")[0].uid == "u1" && s.world.BatchOf("g")[1].uid == "u2";
    assert {"u1", "u2"} <= StaleFor(s.world, "k");
    SubsetSize({"u1", "u2"}, StaleFor(s.world, "k"));
  }
}
