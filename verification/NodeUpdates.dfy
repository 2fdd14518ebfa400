/**
 The read-modify-write operations on Node objects in client/client.go: cordon and uncordon,
 annotate, label and taint.

 Each attempt reads the node, merges into the fetched copy and writes it back; a refused write
 starts a new attempt.  `NodeCopy` is the fetched object with the merges in place.  The
 protocol is a step machine: any number of clients and foreign writers interleave at an API
 server that refuses a write based on a stale version.  A refusal may also have any other cause,
 and a write may be stored although the client sees an error.
 */
module NodeUpdates {
  import opened Taints
  import opened GoMaps

  datatype Node = Node(
    unschedulable: bool, annotations: map<string, string>, labels: map<string, string>, taints: seq<Taint>)

  datatype Op =
    | Cordon(flag: bool)
    | Annotate(annotations: map<string, string>)
    | Label(labels: map<string, string>)
    | AddTaints(taints: seq<Taint>)

  function Merge(n: Node, op: Op): Node {
    match op
    case Cordon(flag) => n.(unschedulable := flag)
    case Annotate(m) => n.(annotations := n.annotations + m)
    case Label(m) => n.(labels := n.labels + m)
    case AddTaints(ts) => n.(taints := MergeTaints(n.taints, ts))
  }

  /******* The fetched copy *******/

  class NodeCopy {
    var unschedulable: bool
    var annotations: map<string, string>
    var labels: map<string, string>
    var taints: seq<Taint>

    function Value(): Node
      reads this
    {
      Node(unschedulable, annotations, labels, taints)
    }

    constructor (n: Node)
      ensures Value() == n
    {
      unschedulable, annotations, labels, taints := n.unschedulable, n.annotations, n.labels, n.taints;
    }

    /** One attempt's merge.  The cordon attempt may find nothing to do, and then ends without a
        write (client.go 341-343). */
    method Apply(op: Op) returns (write: bool)
      modifies this
      ensures Value() == Merge(old(Value()), op)
      ensures write <==> !(op.Cordon? && old(unschedulable) == op.flag)
    {
      write := true;
      match op {
        case Cordon(flag) =>
          if unschedulable == flag {
            write := false;
          } else {
            unschedulable := flag;
          }
        case Annotate(m) =>
          if |annotations| == 0 {
            assert annotations + m == m;
            annotations := m;
          } else {
            annotations := StoreAll(annotations, m);
          }
        case Label(m) =>
          if |labels| == 0 {
            assert labels + m == m;
            labels := m;
          } else {
            labels := StoreAll(labels, m);
          }
        case AddTaints(ts) =>
          taints := MergeInPlace(taints, ts);
      }
    }
  }

  /******* The protocol *******/

  /** `Merged` holds the version read and the merged copy; `Succeeded(at)` records how many
      writes had been stored when the operation took effect. */
  datatype Pc = Idle | Merged(base: nat, copy: Node) | Succeeded(at: nat) | GaveUp

  datatype Client = Client(op: Op, pc: Pc)

  datatype Entry = Commit(client: nat, op: Op) | Foreign(value: Node)

  datatype State = State(node: Node, version: nat, clients: seq<Client>, log: seq<Entry>)

  datatype Reply = Stored | Refused | StoredButLost

  datatype Event =
    | Read(i: nat)
    | ReadFails(i: nat)
    | Write(i: nat, reply: Reply)
    | TimeOut(i: nat)
    | ForeignWrite(value: Node)

  predicate Initial(s: State) {
    s.log == [] && forall i :: 0 <= i < |s.clients| ==> s.clients[i].pc.Idle?
  }

  predicate Enabled(s: State, e: Event) {
    match e
    case Read(i) => i < |s.clients| && s.clients[i].pc.Idle?
    case ReadFails(i) => i < |s.clients| && s.clients[i].pc.Idle?
    case Write(i, reply) =>
      && i < |s.clients| && s.clients[i].pc.Merged?
      && (!reply.Refused? ==> s.clients[i].pc.base == s.version)
    case TimeOut(i) => i < |s.clients| && s.clients[i].pc.Idle?
    case ForeignWrite(_) => true
  }

  function SetPc(s: State, i: nat, pc: Pc): State
    requires i < |s.clients|
  {
    s.(clients := s.clients[i := s.clients[i].(pc := pc)])
  }

  function Store(s: State, value: Node, entry: Entry): State {
    s.(node := value, version := s.version + 1, log := s.log + [entry])
  }

  predicate NothingToDo(n: Node, op: Op) { op.Cordon? && n.unschedulable == op.flag }

  function Next(s: State, e: Event): State
    requires Enabled(s, e)
  {
    match e
    case Read(i) =>
      var op := s.clients[i].op;
      SetPc(s, i, if NothingToDo(s.node, op) then Succeeded(|s.log|) else Merged(s.version, Merge(s.node, op)))
    case ReadFails(i) => SetPc(s, i, GaveUp)
    case Write(i, reply) =>
      var c := s.clients[i];
      (match reply
       case Refused => SetPc(s, i, Idle)
       case Stored => SetPc(Store(s, c.pc.copy, Commit(i, c.op)), i, Succeeded(|s.log| + 1))
       case StoredButLost => SetPc(Store(s, c.pc.copy, Commit(i, c.op)), i, Idle))
    case TimeOut(i) => SetPc(s, i, GaveUp)
    case ForeignWrite(v) => Store(s, v, Foreign(v))
  }

  predicate IsRun(s: State, es: seq<Event>)
    decreases |es|
  {
    es == [] || (Enabled(s, es[0]) && IsRun(Next(s, es[0]), es[1..]))
  }

  function After(s: State, es: seq<Event>): State
    requires IsRun(s, es)
    decreases |es|
  {
    if es == [] then s else After(Next(s, es[0]), es[1..])
  }

  /******* The reference: one operation after another *******/

  function Replay(n: Node, log: seq<Entry>): Node {
    if log == [] then n
    else
      match log[|log| - 1]
      case Commit(_, op) => Merge(Replay(n, log[..|log| - 1]), op)
      case Foreign(v) => v
  }

  lemma ReplaySnoc(n: Node, log: seq<Entry>, e: Entry)
    ensures Replay(n, log + [e]) == if e.Commit? then Merge(Replay(n, log), e.op) else e.value
  {
    assert (log + [e])[..|log|] == log;
  }

  /** What an operation promises its caller. */
  ghost predicate Achieved(n: Node, op: Op) {
    match op
    case Cordon(flag) => n.unschedulable == flag
    case Annotate(m) => forall k :: k in m ==> k in n.annotations && n.annotations[k] == m[k]
    case Label(m) => forall k :: k in m ==> k in n.labels && n.labels[k] == m[k]
    case AddTaints(ts) => forall k :: HasKey(ts, k) ==> LastWith(ts, k) in n.taints
  }

  lemma MergeAchieves(n: Node, op: Op)
    ensures Achieved(Merge(n, op), op)
  {
    if op.AddTaints? {
      var over, fr := Override(n.taints, op.taints), Fresh(n.taints, op.taints);
      forall k | HasKey(op.taints, k) ensures LastWith(op.taints, k) in Merge(n, op).taints {
        if HasKey(n.taints, k) {
          var i := SomeFirst(n.taints, k);
          assert over[i] == LastWith(op.taints, k) && over[i] in over;
        } else {
          FreshEnds(n.taints, op.taints, k);
          assert LastWith(fr, k) in fr;
        }
      }
    }
  }

  ghost predicate ClientKeeps(s: State, start: Node, i: nat)
    requires i < |s.clients|
  {
    var c := s.clients[i];
    match c.pc
    case Merged(base, copy) => base <= s.version && (base == s.version ==> copy == Merge(s.node, c.op))
    case Succeeded(at) =>
      && at <= |s.log|
      && Achieved(Replay(start, s.log[..at]), c.op)
      && (c.op.Cordon? || (at > 0 && s.log[at - 1] == Commit(i, c.op)))
    case _ => true
  }

  ghost predicate Inv(s: State, start: Node) {
    && s.node == Replay(start, s.log)
    && forall i :: 0 <= i < |s.clients| ==> ClientKeeps(s, start, i)
  }

  lemma StoreKeeps(s: State, start: Node, value: Node, entry: Entry, i: nat)
    requires i < |s.clients| && ClientKeeps(s, start, i)
    ensures ClientKeeps(Store(s, value, entry), start, i)
  {
    if s.clients[i].pc.Succeeded? {
      assert (s.log + [entry])[..s.clients[i].pc.at] == s.log[..s.clients[i].pc.at];
    }
  }

  lemma StepKeepsInv(s: State, e: Event, start: Node)
    requires Inv(s, start) && Enabled(s, e)
    ensures Inv(Next(s, e), start)
    ensures |Next(s, e).clients| == |s.clients|
    ensures forall i :: 0 <= i < |s.clients| ==> Next(s, e).clients[i].op == s.clients[i].op
  {
    var t := Next(s, e);
    StepKeepsReplay(s, e, start);
    forall j | 0 <= j < |s.clients| ensures ClientKeeps(t, start, j) {
      if !e.ForeignWrite? && j == e.i {
        ActorKeeps(s, e, start);
      } else {
        OtherKeeps(s, e, start, j);
      }
    }
  }

  lemma OtherKeeps(s: State, e: Event, start: Node, j: nat)
    requires Inv(s, start) && Enabled(s, e) && j < |s.clients| && (e.ForeignWrite? || j != e.i)
    ensures ClientKeeps(Next(s, e), start, j)
  {
    assert ClientKeeps(s, start, j);
    if e.ForeignWrite? || (e.Write? && !e.reply.Refused?) {
      var t := Next(s, e);
      StoreKeeps(s, start, t.node, t.log[|s.log|], j);
    }
  }

  lemma StepKeepsReplay(s: State, e: Event, start: Node)
    requires Inv(s, start) && Enabled(s, e)
    ensures Next(s, e).node == Replay(start, Next(s, e).log)
  {
    if e.ForeignWrite? {
      ReplaySnoc(start, s.log, Foreign(e.value));
    } else if e.Write? && !e.reply.Refused? {
      assert ClientKeeps(s, start, e.i);
      ReplaySnoc(start, s.log, Commit(e.i, s.clients[e.i].op));
    }
  }

  lemma ActorKeeps(s: State, e: Event, start: Node)
    requires Inv(s, start) && Enabled(s, e) && !e.ForeignWrite?
    ensures ClientKeeps(Next(s, e), start, e.i)
  {
    var t := Next(s, e);
    assert ClientKeeps(s, start, e.i);
    StepKeepsReplay(s, e, start);
    assert t.log[..|t.log|] == t.log;
    MergeAchieves(s.node, s.clients[e.i].op);
  }

  lemma {:induction false} RunKeepsInv(s: State, es: seq<Event>, start: Node)
    requires Inv(s, start) && IsRun(s, es)
    ensures Inv(After(s, es), start)
    ensures |After(s, es).clients| == |s.clients|
    ensures forall i :: 0 <= i < |s.clients| ==> After(s, es).clients[i].op == s.clients[i].op
    decreases |es|
  {
    if es != [] {
      StepKeepsInv(s, es[0], start);
      RunKeepsInv(Next(s, es[0]), es[1..], start);
    }
  }

  function StoredBy(clients: seq<Client>, e: Event): seq<Entry> {
    match e
    case Write(i, reply) => if i < |clients| && !reply.Refused? then [Commit(i, clients[i].op)] else []
    case ForeignWrite(v) => [Foreign(v)]
    case _ => []
  }

  /** The writes of a run that were stored, in order.  A refused attempt contributes nothing. */
  function StoredWrites(clients: seq<Client>, es: seq<Event>): seq<Entry> {
    if es == [] then [] else StoredBy(clients, es[0]) + StoredWrites(clients, es[1..])
  }

  predicate SameOps(a: seq<Client>, b: seq<Client>) {
    |a| == |b| && forall i :: 0 <= i < |a| ==> a[i].op == b[i].op
  }

  lemma StepLog(s: State, e: Event, clients: seq<Client>)
    requires Enabled(s, e) && SameOps(clients, s.clients)
    ensures Next(s, e).log == s.log + StoredBy(clients, e) && SameOps(clients, Next(s, e).clients)
  {
  }

  lemma {:induction false} LogIsStoredWrites(s: State, es: seq<Event>, clients: seq<Client>)
    requires IsRun(s, es) && SameOps(clients, s.clients)
    ensures After(s, es).log == s.log + StoredWrites(clients, es)
    decreases |es|
  {
    if es != [] {
      var t, first, rest := Next(s, es[0]), StoredBy(clients, es[0]), StoredWrites(clients, es[1..]);
      StepLog(s, es[0], clients);
      LogIsStoredWrites(t, es[1..], clients);
      assert (s.log + first) + rest == s.log + (first + rest);
    }
  }

  lemma StartedRun(s: State, es: seq<Event>)
    requires Initial(s) && IsRun(s, es)
    ensures Inv(After(s, es), s.node)
    ensures After(s, es).log == StoredWrites(s.clients, es)
  {
    RunKeepsInv(s, es, s.node);
    LogIsStoredWrites(s, es, s.clients);
    assert [] + StoredWrites(s.clients, es) == StoredWrites(s.clients, es);
  }

  /** Whatever the interleaving, the node is the stored operations applied one after another in
      commit order: no update is lost, and nothing of a refused attempt survives. */
  lemma Serializable(s: State, es: seq<Event>)
    requires Initial(s) && IsRun(s, es)
    ensures After(s, es).node == Replay(s.node, StoredWrites(s.clients, es))
  {
    StartedRun(s, es);
  }

  /** A client that returns success was served: at some point of the commit order the node met
      its request, and unless it was a cordon that found nothing to do, its own commit made it so. */
  lemma SuccessTookEffect(s: State, es: seq<Event>, i: nat)
    requires Initial(s) && IsRun(s, es)
    requires i < |After(s, es).clients| && After(s, es).clients[i].pc.Succeeded?
    ensures var op, at := After(s, es).clients[i].op, After(s, es).clients[i].pc.at;
            var stored := StoredWrites(s.clients, es);
            && at <= |stored|
            && Achieved(Replay(s.node, stored[..at]), op)
            && (op.Cordon? || (at > 0 && stored[at - 1] == Commit(i, op)))
  {
    StartedRun(s, es);
    assert ClientKeeps(After(s, es), s.node, i);
  }

  /******* When an operation succeeds *******/

  predicate Ends(pc: Pc) { pc.Succeeded? || pc.GaveUp? }

  lemma {:induction false} EndedStays(s: State, es: seq<Event>, i: nat)
    requires IsRun(s, es) && i < |s.clients| && Ends(s.clients[i].pc)
    ensures i < |After(s, es).clients| && After(s, es).clients[i].pc == s.clients[i].pc
    ensures ReadFails(i) !in es && TimeOut(i) !in es && forall k :: 0 <= k < |es| ==> es[k] != Write(i, Stored)
    decreases |es|
  {
    if es != [] {
      EndedStays(Next(s, es[0]), es[1..], i);
      assert forall k :: 0 < k < |es| ==> es[k] == es[1..][k - 1];
    }
  }

  /** The client stores a write and sees it stored, or reads a node that it has nothing to do for. */
  predicate Served(s: State, es: seq<Event>, i: nat)
    requires IsRun(s, es)
    decreases |es|
  {
    es != [] &&
    (|| es[0] == Write(i, Stored)
     || (es[0] == Read(i) && s.clients[i].op.Cordon? && s.node.unschedulable == s.clients[i].op.flag)
     || Served(Next(s, es[0]), es[1..], i))
  }

  lemma {:induction false} EndedIsNotServed(s: State, es: seq<Event>, i: nat)
    requires IsRun(s, es) && i < |s.clients| && Ends(s.clients[i].pc)
    ensures !Served(s, es, i)
    decreases |es|
  {
    if es != [] {
      EndedIsNotServed(Next(s, es[0]), es[1..], i);
    }
  }

  lemma EndsNow(s: State, e: Event, i: nat)
    requires Enabled(s, e) && i < |s.clients| && !Ends(s.clients[i].pc)
    ensures |Next(s, e).clients| == |s.clients| && Next(s, e).clients[i].op == s.clients[i].op
    ensures Next(s, e).clients[i].pc.GaveUp? <==> e == ReadFails(i) || e == TimeOut(i)
    ensures Next(s, e).clients[i].pc.Succeeded? <==>
            || e == Write(i, Stored)
            || (e == Read(i) && s.clients[i].op.Cordon? && s.node.unschedulable == s.clients[i].op.flag)
  {
  }

  /** An operation fails iff a read fails or the time runs out, and succeeds iff it is served: in between it
      tries again, however often it is refused, and whatever happens to the other clients. */
  lemma {:induction false} OutcomeIff(s: State, es: seq<Event>, i: nat)
    requires IsRun(s, es) && i < |s.clients| && !Ends(s.clients[i].pc)
    ensures i < |After(s, es).clients|
    ensures After(s, es).clients[i].pc.GaveUp? <==> ReadFails(i) in es || TimeOut(i) in es
    ensures After(s, es).clients[i].pc.Succeeded? <==> Served(s, es, i)
    decreases |es|
  {
    if es != [] {
      var t := Next(s, es[0]);
      EndsNow(s, es[0], i);
      assert es == [es[0]] + es[1..];
      if Ends(t.clients[i].pc) {
        EndedStays(t, es[1..], i);
        EndedIsNotServed(t, es[1..], i);
      } else {
        OutcomeIff(t, es[1..], i);
      }
    }
  }

  predicate Stale(s: State, i: nat)
    requires i < |s.clients|
  {
    s.clients[i].pc.Merged? && s.clients[i].pc.base < s.version
  }

  /** A stale write is refused, the node read again, and what is merged then stored. */
  lemma FinishFrom(s: State, i: nat) returns (es: seq<Event>)
    requires i < |s.clients| && !s.clients[i].pc.GaveUp?
    requires s.clients[i].pc.Merged? ==> s.clients[i].pc.base <= s.version
    ensures IsRun(s, es) && |After(s, es).clients| == |s.clients| && After(s, es).clients[i].pc.Succeeded?
    ensures Stale(s, i) ==> es != [] && es[0] == Write(i, Refused)
    decreases if Stale(s, i) then 3 else if s.clients[i].pc.Idle? then 2 else if s.clients[i].pc.Merged? then 1 else 0
  {
    es := [];
    if !s.clients[i].pc.Succeeded? {
      var e := if s.clients[i].pc.Idle? then Read(i) else Write(i, if Stale(s, i) then Refused else Stored);
      es := FinishFrom(Next(s, e), i);
      es := [e] + es;
    }
  }

  /** Whatever happened before, each client that has not given up can still succeed: a refusal costs it
      another attempt, but nothing more. */
  lemma CanStillSucceed(s: State, before: seq<Event>, i: nat) returns (es: seq<Event>)
    requires Initial(s) && IsRun(s, before) && i < |s.clients|
    requires i < |After(s, before).clients| && !After(s, before).clients[i].pc.GaveUp?
    ensures IsRun(After(s, before), es)
    ensures var end := After(After(s, before), es); i < |end.clients| && end.clients[i].pc.Succeeded?
    ensures Stale(After(s, before), i) ==> es != [] && es[0] == Write(i, Refused)
  {
    StartedRun(s, before);
    assert ClientKeeps(After(s, before), s.node, i);
    es := FinishFrom(After(s, before), i);
  }

  /******* Last writer wins, key by key *******/

  function Lookup<V>(m: map<string, V>, k: string): (r: seq<V>) { if k in m then [m[k]] else [] }

  /** Who wrote annotation `k` last: `[]` when nobody did and it was absent. */
  function LastAnnotation(n: Node, log: seq<Entry>, k: string): seq<string> {
    if log == [] then Lookup(n.annotations, k)
    else
      match log[|log| - 1]
      case Foreign(v) => Lookup(v.annotations, k)
      case Commit(_, op) =>
        if op.Annotate? && k in op.annotations then [op.annotations[k]]
        else LastAnnotation(n, log[..|log| - 1], k)
  }

  function LastLabel(n: Node, log: seq<Entry>, k: string): seq<string> {
    if log == [] then Lookup(n.labels, k)
    else
      match log[|log| - 1]
      case Foreign(v) => Lookup(v.labels, k)
      case Commit(_, op) =>
        if op.Label? && k in op.labels then [op.labels[k]]
        else LastLabel(n, log[..|log| - 1], k)
  }

  /** The first taint of a key, which is the one `containTaint` finds. */
  function TaintOf(ts: seq<Taint>, k: string): seq<Taint> { if HasKey(ts, k) then [FirstWith(ts, k)] else [] }

  /** A commit replaces the taint of a key by its last taint with the key, or adds its first. */
  function LastTaint(n: Node, log: seq<Entry>, k: string): seq<Taint> {
    if log == [] then TaintOf(n.taints, k)
    else
      match log[|log| - 1]
      case Foreign(v) => TaintOf(v.taints, k)
      case Commit(_, op) =>
        var before := LastTaint(n, log[..|log| - 1], k);
        if !op.AddTaints? || !HasKey(op.taints, k) then before
        else if before == [] then [FirstWith(op.taints, k)]
        else [LastWith(op.taints, k)]
  }

  function LastCordon(n: Node, log: seq<Entry>): bool {
    if log == [] then n.unschedulable
    else
      match log[|log| - 1]
      case Foreign(v) => v.unschedulable
      case Commit(_, op) => if op.Cordon? then op.flag else LastCordon(n, log[..|log| - 1])
  }

  lemma {:induction false} LastWriterWins(n: Node, log: seq<Entry>, k: string)
    ensures Lookup(Replay(n, log).annotations, k) == LastAnnotation(n, log, k)
    ensures Lookup(Replay(n, log).labels, k) == LastLabel(n, log, k)
    ensures Replay(n, log).unschedulable == LastCordon(n, log)
  {
    if log != [] {
      LastWriterWins(n, log[..|log| - 1], k);
    }
  }

  /** The same for taints by key, on any node: a foreign writer may even keep one key under several
      effects. */
  lemma {:induction false} LastTainterWins(n: Node, log: seq<Entry>, k: string)
    ensures TaintOf(Replay(n, log).taints, k) == LastTaint(n, log, k)
  {
    if log != [] {
      var front, last := log[..|log| - 1], log[|log| - 1];
      LastTainterWins(n, front, k);
      if last.Commit? && last.op.AddTaints? {
        var before := Replay(n, front).taints;
        MergedKeys(before, last.op.taints, k);
        if HasKey(before, k) || HasKey(last.op.taints, k) {
          FirstAfterMerge(before, last.op.taints, k);
        }
      }
    }
  }
}
