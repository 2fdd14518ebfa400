/**
 `DrainNode` and `evictPod` of client/client.go as a step machine.

 One evictor runs per selected pod.  Every evictor sends one result on a channel of capacity 1;
 a collector receives until the first error, the deadline, or one result per pod, and then
 closes `abort`.  An evictor never fails to get its client: the client is made once, and
 `PodList` has got it before.  The API server is part of the state: between any two steps it may delete,
 replace or create pods, but it never hands out a pod UID twice, and its answers are truthful.
 A run is a finite sequence of enabled events, so a lemma about every run is a lemma about
 every interleaving.
 */
module Drain {
  import opened Wrappers
  import opened PodFilters

  /******* The API server *******/

  datatype Ref = Ref(namespace: string, name: string)

  function RefOf(p: Pod): Ref { Ref(p.namespace, p.name) }

  /** The pods that exist now and every UID handed out so far. */
  datatype Server = Server(pods: map<Ref, Pod>, used: set<string>) {
    ghost predicate Valid() {
      && (forall r :: r in pods ==> RefOf(pods[r]) == r && pods[r].uid in used)
      && (forall q, r :: q in pods && r in pods && pods[q].uid == pods[r].uid ==> q == r)
    }

    /** The incarnation `p` no longer exists: its name is free or belongs to another UID. */
    predicate Gone(p: Pod) {
      RefOf(p) !in pods || pods[RefOf(p)].uid != p.uid
    }

    function At(r: Ref): Option<Pod> {
      if r in pods then Some(pods[r]) else None
    }
  }

  /** What may happen at the server between two steps: pods come, change and go, but a name that
      is bound to another UID than before is bound to a UID never used before. */
  ghost predicate MayBecome(a: Server, b: Server) {
    && b.Valid()
    && a.used <= b.used
    && (forall r :: r in b.pods ==>
          (r in a.pods && a.pods[r].uid == b.pods[r].uid) || b.pods[r].uid !in a.used)
  }

  /** A listing of the pods on `node`, as the API server returns it. */
  ghost predicate ListsNode(server: Server, node: string, listed: seq<Pod>) {
    && (forall p :: p in listed <==> RefOf(p) in server.pods && server.pods[RefOf(p)] == p && p.node == node)
    && (forall i, j :: 0 <= i < j < |listed| ==> listed[i] != listed[j])
  }

  /******* States *******/

  datatype Result = Nil | Err

  /** Where an evictor stands.  `Issuing` is past the `select` (its default case was taken) with
      the Evict request not answered yet. */
  datatype Pc = Starting | AtSelect | Issuing | Polling | Sending(result: Result) | Finished

  datatype Collector = Collecting | Unwinding(result: Result) | Returned(result: Result)

  /** An Evict request: the evictor that made it, the name it carries, and the pod that bore the
      name when the server handled it. */
  datatype Call = Call(evictor: nat, target: Ref, hit: Option<Pod>)

  datatype State = State(
    pods: seq<Pod>, server: Server, pcs: seq<Pc>, buffer: Option<Result>,
    received: nat, collector: Collector, abort: bool, calls: seq<Call>)

  /** `DrainNode` up to the start of its goroutines: a filter error returns at once. */
  function Begin(server: Server, listed: seq<Pod>, filter: Filter): State {
    match Selected(listed, filter)
    case None => State([], server, [], None, 0, Returned(Err), false, [])
    case Some(pods) => State(pods, server, seq(|pods|, _ => Starting), None, 0, Collecting, false, [])
  }

  /******* Events *******/

  datatype EvictReply = TooManyRequests | NotFound | Refused | Accepted
  datatype PollReply = Vanished | Replaced | StillThere | PollFailed

  datatype Event =
    | Start(i: nat)
    | Select(i: nat)
    | Evict(i: nat, evictReply: EvictReply)
    | Poll(i: nat, pollReply: PollReply)
    | Send(i: nat)
    | Receive
    | Deadline
    | Return
    | CloseAbort
    | Change(to: Server)

  predicate At(s: State, i: nat, pc: Pc) {
    i < |s.pcs| && s.pcs[i] == pc
  }

  ghost predicate Enabled(s: State, e: Event)
    requires |s.pcs| == |s.pods|
  {
    match e
    case Start(i) => At(s, i, Starting)
    case Select(i) => At(s, i, AtSelect)
    case Evict(i, reply) => At(s, i, Issuing) && (reply.NotFound? ==> RefOf(s.pods[i]) !in s.server.pods)
    case Poll(i, reply) =>
      && At(s, i, Polling)
      && (reply.Vanished? ==> RefOf(s.pods[i]) !in s.server.pods)
      && (reply.Replaced? ==> RefOf(s.pods[i]) in s.server.pods && s.server.pods[RefOf(s.pods[i])].uid != s.pods[i].uid)
    case Send(i) => i < |s.pcs| && s.pcs[i].Sending? && s.buffer.None?
    case Receive => s.collector.Collecting? && s.received < |s.pods| && s.buffer.Some?
    case Deadline => s.collector.Collecting? && s.received < |s.pods|
    case Return => s.collector.Collecting? && s.received == |s.pods|
    case CloseAbort => s.collector.Unwinding?
    case Change(to) => MayBecome(s.server, to)
  }

  function AfterEvict(reply: EvictReply): Pc {
    match reply
    case TooManyRequests => AtSelect
    case NotFound => Sending(Nil)
    case Refused => Sending(Err)
    case Accepted => Polling
  }

  function AfterPoll(reply: PollReply): Pc {
    match reply
    case Vanished => Sending(Nil)
    case Replaced => Sending(Nil)
    case StillThere => Polling
    case PollFailed => Sending(Err)
  }

  /** One step.  `Select` takes the abort case whenever `abort` is closed, as Go's `select` with a
      default case does. */
  ghost function Next(s: State, e: Event): State
    requires |s.pcs| == |s.pods| && Enabled(s, e)
  {
    match e
    case Start(i) => s.(pcs := s.pcs[i := AtSelect])
    case Select(i) => s.(pcs := s.pcs[i := if s.abort then Sending(Err) else Issuing])
    case Evict(i, reply) =>
      s.(pcs := s.pcs[i := AfterEvict(reply)],
         calls := s.calls + [Call(i, RefOf(s.pods[i]), s.server.At(RefOf(s.pods[i])))])
    case Poll(i, reply) => s.(pcs := s.pcs[i := AfterPoll(reply)])
    case Send(i) => s.(pcs := s.pcs[i := Finished], buffer := Some(s.pcs[i].result))
    case Receive =>
      s.(received := s.received + 1, buffer := None,
         collector := if s.buffer.value.Err? then Unwinding(Err) else Collecting)
    case Deadline => s.(collector := Unwinding(Err))
    case Return => s.(collector := Unwinding(Nil))
    case CloseAbort => s.(collector := Returned(s.collector.result), abort := true)
    case Change(to) => s.(server := to)
  }

  ghost predicate IsRun(s: State, es: seq<Event>)
    decreases |es|
  {
    |s.pcs| == |s.pods| && (es == [] || (Enabled(s, es[0]) && IsRun(Next(s, es[0]), es[1..])))
  }

  ghost function After(s: State, es: seq<Event>): State
    requires IsRun(s, es)
    ensures |After(s, es).pcs| == |After(s, es).pods|
    decreases |es|
  {
    if es == [] then s else After(Next(s, es[0]), es[1..])
  }

  lemma {:induction false} ExtendRun(s: State, es: seq<Event>, e: Event)
    requires IsRun(s, es) && Enabled(After(s, es), e)
    ensures IsRun(s, es + [e]) && After(s, es + [e]) == Next(After(s, es), e)
    decreases |es|
  {
    if es == [] {
      assert es + [e] == [e] && [e][1..] == [];
    } else {
      ExtendRun(Next(s, es[0]), es[1..], e);
      assert (es + [e])[1..] == es[1..] + [e];
    }
  }

  /******* Counting finished evictors *******/

  function FinishedCount(pcs: seq<Pc>): nat {
    if pcs == [] then 0
    else FinishedCount(pcs[1..]) + if pcs[0].Finished? then 1 else 0
  }

  lemma {:induction false} FinishedCountUpdate(pcs: seq<Pc>, i: nat, pc: Pc)
    requires i < |pcs|
    ensures FinishedCount(pcs[i := pc]) ==
            FinishedCount(pcs) + (if pc.Finished? then 1 else 0) - (if pcs[i].Finished? then 1 else 0)
  {
    if i == 0 {
      assert pcs[0 := pc][1..] == pcs[1..];
    } else {
      assert pcs[i := pc][1..] == pcs[1..][i - 1 := pc];
      FinishedCountUpdate(pcs[1..], i - 1, pc);
    }
  }

  lemma {:induction false} FinishedCountBounds(pcs: seq<Pc>)
    ensures FinishedCount(pcs) <= |pcs|
    ensures FinishedCount(pcs) == |pcs| <==> forall i :: 0 <= i < |pcs| ==> pcs[i].Finished?
    ensures (forall i :: 0 <= i < |pcs| ==> !pcs[i].Finished?) ==> FinishedCount(pcs) == 0
  {
    if pcs != [] {
      FinishedCountBounds(pcs[1..]);
      assert forall i :: 0 < i < |pcs| ==> pcs[i] == pcs[1..][i - 1];
    }
  }

  /******* The invariant *******/

  /** The caller has been told of no error so far and none waits in the channel. */
  predicate NoErrorSeen(s: State) {
    s.buffer != Some(Err) && (s.collector.Collecting? || s.collector.result.Nil?)
  }

  function Buffered(s: State): nat { if s.buffer.Some? then 1 else 0 }

  /** What a name targeted by the drain is bound to: the pod that was selected, or a pod created
      after the listing (its UID is not in `listedUids`). */
  ghost predicate ServerKeeps(s: State, listedUids: set<string>) {
    && s.server.Valid()
    && listedUids <= s.server.used
    && (forall p :: p in s.pods ==> p.uid in listedUids)
    && (forall p :: p in s.pods && RefOf(p) in s.server.pods ==>
          s.server.pods[RefOf(p)].uid == p.uid || s.server.pods[RefOf(p)].uid !in listedUids)
  }

  ghost predicate CallsKeep(s: State, listedUids: set<string>) {
    forall c :: c in s.calls ==>
      && c.evictor < |s.pods| && c.target == RefOf(s.pods[c.evictor])
      && (c.hit.Some? ==> c.hit.value.uid == s.pods[c.evictor].uid || c.hit.value.uid !in listedUids)
  }

  /** Every result sent has been received or is in the channel. */
  predicate ResultsCounted(s: State) { s.received + Buffered(s) == FinishedCount(s.pcs) }

  ghost predicate ResultKeeps(s: State, i: nat)
    requires i < |s.pcs| == |s.pods|
  {
    s.pcs[i] == Sending(Nil) || (NoErrorSeen(s) && s.pcs[i].Finished?) ==> s.server.Gone(s.pods[i])
  }

  ghost predicate ResultsKeep(s: State) {
    && |s.pcs| == |s.pods|
    && ResultsCounted(s)
    && (forall i :: 0 <= i < |s.pcs| ==> ResultKeeps(s, i))
    && (!s.collector.Collecting? && s.collector.result.Nil? ==> s.received == |s.pods|)
    && (s.abort ==> s.collector.Returned?)
  }

  ghost predicate Inv(s: State, listedUids: set<string>) {
    ServerKeeps(s, listedUids) && CallsKeep(s, listedUids) && ResultsKeep(s)
  }

  lemma BeginKeepsServer(server: Server, node: string, listed: seq<Pod>, filter: Filter)
    requires server.Valid() && ListsNode(server, node, listed)
    ensures ServerKeeps(Begin(server, listed, filter), server.used)
  {
    SelectedMeaning(listed, filter);
  }

  lemma BeginEstablishesInv(server: Server, node: string, listed: seq<Pod>, filter: Filter)
    requires server.Valid() && ListsNode(server, node, listed)
    ensures Inv(Begin(server, listed, filter), server.used)
  {
    BeginKeepsServer(server, node, listed, filter);
    FinishedCountBounds(Begin(server, listed, filter).pcs);
  }

  lemma StepKeepsServer(s: State, e: Event, listedUids: set<string>)
    requires |s.pcs| == |s.pods| && Enabled(s, e)
    requires ServerKeeps(s, listedUids)
    ensures ServerKeeps(Next(s, e), listedUids)
    ensures forall p :: p in s.pods && s.server.Gone(p) ==> Next(s, e).server.Gone(p)
  {
  }

  lemma StepKeepsCalls(s: State, e: Event, listedUids: set<string>)
    requires |s.pcs| == |s.pods| && Enabled(s, e)
    requires ServerKeeps(s, listedUids) && CallsKeep(s, listedUids)
    ensures CallsKeep(Next(s, e), listedUids)
  {
  }

  lemma StepKeepsCount(s: State, e: Event)
    requires |s.pcs| == |s.pods| && ResultsCounted(s) && Enabled(s, e)
    ensures ResultsCounted(Next(s, e))
  {
    if e.Start? || e.Select? || e.Evict? || e.Poll? || e.Send? {
      FinishedCountUpdate(s.pcs, e.i, Next(s, e).pcs[e.i]);
    }
  }

  lemma StepKeepsResult(s: State, e: Event, i: nat)
    requires ResultsKeep(s) && Enabled(s, e) && i < |s.pcs|
    requires forall p :: p in s.pods && s.server.Gone(p) ==> Next(s, e).server.Gone(p)
    ensures ResultKeeps(Next(s, e), i)
  {
    assert ResultKeeps(s, i) && s.pods[i] in s.pods;
    if e.Send? && e.i == i && s.pcs[i].result.Nil? {
      assert s.pcs[i] == Sending(Nil);
    }
  }

  lemma StepKeepsResults(s: State, e: Event)
    requires ResultsKeep(s) && Enabled(s, e)
    requires forall p :: p in s.pods && s.server.Gone(p) ==> Next(s, e).server.Gone(p)
    ensures ResultsKeep(Next(s, e))
  {
    StepKeepsCount(s, e);
    forall i | 0 <= i < |s.pcs| ensures ResultKeeps(Next(s, e), i) {
      StepKeepsResult(s, e, i);
    }
  }

  lemma StepKeepsInv(s: State, e: Event, listedUids: set<string>)
    requires Inv(s, listedUids) && Enabled(s, e)
    ensures Inv(Next(s, e), listedUids)
    ensures Next(s, e).pods == s.pods
  {
    StepKeepsServer(s, e, listedUids);
    StepKeepsCalls(s, e, listedUids);
    StepKeepsResults(s, e);
  }

  lemma {:induction false} RunKeepsInv(s: State, es: seq<Event>, listedUids: set<string>)
    requires Inv(s, listedUids) && IsRun(s, es)
    ensures Inv(After(s, es), listedUids)
    ensures After(s, es).pods == s.pods
    decreases |es|
  {
    if es != [] {
      StepKeepsInv(s, es[0], listedUids);
      RunKeepsInv(Next(s, es[0]), es[1..], listedUids);
    }
  }

  /******* Safety over every run *******/

  lemma SuccessIsComplete(s: State)
    requires ResultsKeep(s) && !s.collector.Collecting? && s.collector.result.Nil?
    ensures forall i :: 0 <= i < |s.pcs| ==> s.pcs[i].Finished? && s.server.Gone(s.pods[i])
    ensures s.buffer.None?
  {
    FinishedCountBounds(s.pcs);
    assert Buffered(s) == 0 && s.buffer.None?;
    forall i | 0 <= i < |s.pcs| ensures s.pcs[i].Finished? && s.server.Gone(s.pods[i]) {
      assert ResultKeeps(s, i);
    }
  }

  /** If the drain reports success, then no pod that was listed on the node and passes the filters
      still exists in the incarnation that was listed. */
  lemma SuccessMeansEvicted(server: Server, node: string, listed: seq<Pod>, filter: Filter, es: seq<Event>)
    requires server.Valid() && ListsNode(server, node, listed)
    requires IsRun(Begin(server, listed, filter), es)
    ensures var end := After(Begin(server, listed, filter), es);
            !end.collector.Collecting? && end.collector.result.Nil? ==>
              && (forall p :: p in listed ==> !filter(p).Failed?)
              && (forall p :: p in listed && filter(p).Pass? ==> end.server.Gone(p))
              && (forall i :: 0 <= i < |end.pcs| ==> end.pcs[i].Finished?)
              && end.buffer.None?
  {
    var s := Begin(server, listed, filter);
    var end := After(s, es);
    BeginEstablishesInv(server, node, listed, filter);
    RunKeepsInv(s, es, server.used);
    SelectedMeaning(listed, filter);
    if !end.collector.Collecting? && end.collector.result.Nil? {
      SuccessIsComplete(end);
    }
    if Selected(listed, filter).None? {
      FilterErrorIsFinal(s, es);
    }
  }

  /******* When a drain succeeds *******/

  /** The deadline passes, or the API server refuses a request or a poll. */
  predicate Fault(e: Event) {
    e.Deadline? || (e.Evict? && e.evictReply.Refused?) || (e.Poll? && e.pollReply.PollFailed?)
  }

  predicate Faultless(es: seq<Event>) { forall k :: 0 <= k < |es| ==> !Fault(es[k]) }

  /** No error anywhere. */
  predicate Clean(s: State) { NoErrorSeen(s) && forall i :: 0 <= i < |s.pcs| ==> s.pcs[i] != Sending(Err) }

  lemma StepKeepsClean(s: State, e: Event)
    requires ResultsKeep(s) && Clean(s) && Enabled(s, e) && !Fault(e)
    ensures Clean(Next(s, e))
  {
    if s.abort {
      SuccessIsComplete(s);
    }
  }

  lemma {:induction false} FaultlessRunIsClean(s: State, es: seq<Event>, listedUids: set<string>)
    requires Inv(s, listedUids) && Clean(s) && IsRun(s, es) && Faultless(es)
    ensures Clean(After(s, es))
    decreases |es|
  {
    if es != [] {
      StepKeepsInv(s, es[0], listedUids);
      StepKeepsClean(s, es[0]);
      assert Faultless(es[1..]);
      FaultlessRunIsClean(Next(s, es[0]), es[1..], listedUids);
    }
  }

  lemma FaultLeavesError(s: State, e: Event)
    requires ResultsKeep(s) && Enabled(s, e) && Fault(e)
    ensures !Clean(Next(s, e))
  {
    if !e.Deadline? {
      assert Next(s, e).pcs[e.i] == Sending(Err);
    }
  }

  lemma StepKeepsError(s: State, e: Event)
    requires ResultsKeep(s) && Enabled(s, e) && !Clean(s)
    ensures !Clean(Next(s, e))
  {
    if NoErrorSeen(s) {
      var i :| 0 <= i < |s.pcs| && s.pcs[i] == Sending(Err);
      if e.Return? {
        FinishedCountBounds(s.pcs);
      }
      assert Next(s, e).pcs[i] == Sending(Err) || Next(s, e).buffer == Some(Err);
    }
  }

  lemma {:induction false} ErrorStays(s: State, es: seq<Event>, listedUids: set<string>)
    requires Inv(s, listedUids) && IsRun(s, es) && (!Clean(s) || !Faultless(es))
    ensures !Clean(After(s, es))
    decreases |es|
  {
    if es != [] {
      StepKeepsInv(s, es[0], listedUids);
      if !Clean(s) {
        StepKeepsError(s, es[0]);
      } else if Fault(es[0]) {
        FaultLeavesError(s, es[0]);
      } else {
        assert forall k :: 0 < k < |es| ==> es[k] == es[1..][k - 1];
      }
      ErrorStays(Next(s, es[0]), es[1..], listedUids);
    }
  }

  /** Once the drain is over it has succeeded iff no filter failed, the deadline did not pass first, and no
      request and no poll of any evictor was refused. */
  lemma DrainSucceedsIff(server: Server, node: string, listed: seq<Pod>, filter: Filter, es: seq<Event>)
    requires server.Valid() && ListsNode(server, node, listed) && IsRun(Begin(server, listed, filter), es)
    requires !After(Begin(server, listed, filter), es).collector.Collecting?
    ensures After(Begin(server, listed, filter), es).collector.result.Nil?
            <==> (forall p :: p in listed ==> !filter(p).Failed?) && Faultless(es)
  {
    var s := Begin(server, listed, filter);
    var end := After(s, es);
    BeginEstablishesInv(server, node, listed, filter);
    SelectedMeaning(listed, filter);
    RunKeepsInv(s, es, server.used);
    if Selected(listed, filter).None? {
      FilterErrorIsFinal(s, es);
    } else if Faultless(es) {
      FaultlessRunIsClean(s, es, server.used);
    } else {
      ErrorStays(s, es, server.used);
      if end.collector.result.Nil? {
        SuccessIsComplete(end);
      }
    }
  }

  lemma {:induction false} FilterErrorIsFinal(s: State, es: seq<Event>)
    requires s.pods == [] && s.pcs == [] && s.collector == Returned(Err) && s.calls == []
    requires IsRun(s, es)
    ensures After(s, es).collector == Returned(Err) && After(s, es).calls == []
    decreases |es|
  {
    if es != [] {
      FilterErrorIsFinal(Next(s, es[0]), es[1..]);
    }
  }

  /** Every Evict request names a listed pod that passes the filters, and the pod it strikes is
      that pod or one created after the listing.  So a listed pod the filters turn down is never
      struck, nor is any other pod that existed at the listing; and a filter error means no
      request at all. */
  lemma OnlySelectedPodsAreEvicted(
    server: Server, node: string, listed: seq<Pod>, filter: Filter, es: seq<Event>, c: Call)
    requires server.Valid() && ListsNode(server, node, listed)
    requires IsRun(Begin(server, listed, filter), es)
    requires c in After(Begin(server, listed, filter), es).calls
    ensures forall p :: p in listed ==> !filter(p).Failed?
    ensures exists p :: p in listed && filter(p).Pass? && c.target == RefOf(p) &&
                        (c.hit.Some? ==> c.hit.value.uid == p.uid || c.hit.value.uid !in server.used)
    ensures forall q :: q in listed && !filter(q).Pass? ==>
                          c.target != RefOf(q) && (c.hit.Some? ==> c.hit.value.uid != q.uid)
  {
    var s := Begin(server, listed, filter);
    var end := After(s, es);
    BeginEstablishesInv(server, node, listed, filter);
    RunKeepsInv(s, es, server.used);
    SelectedMeaning(listed, filter);
    if Selected(listed, filter).None? {
      FilterErrorIsFinal(s, es);
    }
    var p := end.pods[c.evictor];
    assert p in listed && filter(p).Pass?;
  }

  /******* What a request strikes *******/

  /** Some request of the run strikes a pod the filter turns down. */
  ghost predicate StrikesRejected(s: State, es: seq<Event>, filter: Filter) {
    IsRun(s, es) && exists c :: c in After(s, es).calls && c.hit.Some? && !filter(c.hit.value).Pass?
  }

  lemma Longer(used: set<string>) returns (n: nat)
    ensures forall x :: x in used ==> |x| < n
  {
    n := 0;
    if used != {} {
      var x :| x in used;
      n := Longer(used - {x});
      if n <= |x| { n := |x| + 1; }
      assert forall y :: y in used ==> y == x || y in used - {x};
    }
  }

  lemma FreshUid(used: set<string>) returns (uid: string)
    ensures uid !in used
  {
    var n := Longer(used);
    uid := seq(n, _ => 'u');
  }

  /** A mirror pod can take over the name of the first selected pod when its evictor is past `select`. */
  lemma StrikeAMirrorPod(server: Server, listed: seq<Pod>, filter: Filter) returns (es: seq<Event>)
    requires server.Valid() && Selected(listed, filter).Some? && Selected(listed, filter).value != []
    requires forall p: Pod :: MIRROR_POD_ANNOTATION in p.annotations ==> !filter(p).Pass?
    ensures StrikesRejected(Begin(server, listed, filter), es, filter)
  {
    var s := Begin(server, listed, filter);
    var p := s.pods[0];
    var uid := FreshUid(server.used);
    var other := p.(uid := uid, annotations := map[MIRROR_POD_ANNOTATION := ""]);
    var later := Server(map[RefOf(p) := other], server.used + {uid});
    es := [];
    ExtendRun(s, es, Start(0));
    es := es + [Start(0)];
    ExtendRun(s, es, Select(0));
    es := es + [Select(0)];
    ExtendRun(s, es, Change(later));
    es := es + [Change(later)];
    ExtendRun(s, es, Evict(0, Accepted));
    es := es + [Evict(0, Accepted)];
    assert Call(0, RefOf(p), Some(other)) in After(s, es).calls;
  }

  /** A request carries a name, not a UID, and what bears the name is not filtered again.  So for every
      server, listing and pair of flags of `DrainNode`, some run strikes a pod that its filters turn
      down iff they select any pod at all. */
  lemma RejectedCanBeStruckIff(
    server: Server, node: string, listed: seq<Pod>, ignoreDaemonSet: bool, deleteLocalData: bool, lookup: Pod -> Lookup)
    requires server.Valid() && ListsNode(server, node, listed)
    ensures var filter := NewPodFilters(DrainFilters(ignoreDaemonSet, deleteLocalData, lookup));
            (exists es :: StrikesRejected(Begin(server, listed, filter), es, filter))
            <==> Selected(listed, filter).Some? && Selected(listed, filter).value != []
  {
    var filter := NewPodFilters(DrainFilters(ignoreDaemonSet, deleteLocalData, lookup));
    var s := Begin(server, listed, filter);
    if Selected(listed, filter).Some? && Selected(listed, filter).value != [] {
      forall p: Pod | MIRROR_POD_ANNOTATION in p.annotations ensures !filter(p).Pass? {
        DrainFiltersMeaning(ignoreDaemonSet, deleteLocalData, lookup, p);
      }
      var es := StrikeAMirrorPod(server, listed, filter);
    } else {
      forall es | IsRun(s, es) ensures After(s, es).calls == [] {
        NothingSelectedNothingStruck(s, es);
      }
    }
  }

  lemma {:induction false} NothingSelectedNothingStruck(s: State, es: seq<Event>)
    requires s.pods == [] && s.pcs == [] && s.calls == [] && IsRun(s, es)
    ensures After(s, es).calls == []
    decreases |es|
  {
    if es != [] {
      NothingSelectedNothingStruck(Next(s, es[0]), es[1..]);
    }
  }

  /** In every state of the run, what bears the name of a selected pod passes the filter. */
  ghost predicate NamesPass(s: State, es: seq<Event>, filter: Filter)
    requires IsRun(s, es)
    decreases |es|
  {
    && (forall p :: p in s.pods && RefOf(p) in s.server.pods ==> filter(s.server.pods[RefOf(p)]).Pass?)
    && (es == [] || NamesPass(Next(s, es[0]), es[1..], filter))
  }

  ghost predicate StruckPass(s: State, filter: Filter) {
    forall c :: c in s.calls && c.hit.Some? ==> filter(c.hit.value).Pass?
  }

  /** Then every pod struck passes it too. */
  lemma {:induction false} StruckPodsPass(s: State, es: seq<Event>, filter: Filter)
    requires IsRun(s, es) && NamesPass(s, es, filter) && StruckPass(s, filter)
    ensures StruckPass(After(s, es), filter)
    decreases |es|
  {
    if es != [] {
      if es[0].Evict? {
        assert s.pods[es[0].i] in s.pods;
      }
      StruckPodsPass(Next(s, es[0]), es[1..], filter);
    }
  }

  /******* The result channel *******/

  /** In every run each evictor puts at most one result in the channel (`Finished` is never left),
      and completed sends never exceed receives by more than the one buffered result. */
  lemma SendsNeverExceedReceivesPlusOne(s: State, es: seq<Event>, listedUids: set<string>)
    requires Inv(s, listedUids) && IsRun(s, es)
    ensures var end := After(s, es);
            && FinishedCount(end.pcs) == end.received + Buffered(end) <= end.received + 1
            && end.received <= |end.pods|
            && forall i :: 0 <= i < |s.pcs| && s.pcs[i].Finished? ==> i < |end.pcs| && end.pcs[i].Finished?
  {
    RunKeepsInv(s, es, listedUids);
    FinishedCountBounds(After(s, es).pcs);
    FinishedStays(s, es);
  }

  lemma {:induction false} FinishedStays(s: State, es: seq<Event>)
    requires IsRun(s, es)
    ensures |After(s, es).pcs| == |s.pcs|
    ensures forall i :: 0 <= i < |s.pcs| && s.pcs[i].Finished? ==> After(s, es).pcs[i].Finished?
    decreases |es|
  {
    if es != [] {
      FinishedStays(Next(s, es[0]), es[1..]);
    }
  }

  lemma {:induction false} NoReceiveAfterReturn(s: State, es: seq<Event>)
    requires IsRun(s, es) && !s.collector.Collecting?
    ensures After(s, es).received == s.received && !After(s, es).collector.Collecting?
    ensures After(s, es).pods == s.pods
    decreases |es|
  {
    if es != [] {
      NoReceiveAfterReturn(Next(s, es[0]), es[1..]);
    }
  }

  /** Once the collector has stopped after receiving `k` of `n` results, at least `n - k - 1`
      evictors are still unfinished in every later state: they never complete. */
  lemma EarlyReturnLeaksEvictors(s: State, es: seq<Event>, listedUids: set<string>)
    requires Inv(s, listedUids) && IsRun(s, es) && !s.collector.Collecting?
    ensures var end := After(s, es);
            |end.pcs| - FinishedCount(end.pcs) >= |s.pods| - s.received - 1
  {
    RunKeepsInv(s, es, listedUids);
    NoReceiveAfterReturn(s, es);
  }

  /** Evictor `i` goes from its start to its end, its Evict request being answered with `reply`. */
  lemma FinishOne(s: State, es: seq<Event>, i: nat, reply: EvictReply) returns (more: seq<Event>)
    requires IsRun(s, es) && At(After(s, es), i, Starting) && After(s, es).server.pods == map[]
    requires !After(s, es).abort && After(s, es).buffer.None? && (reply.NotFound? || reply.Refused?)
    ensures IsRun(s, more)
    ensures var t, u := After(s, es), After(s, more);
            u == t.(pcs := t.pcs[i := Finished], buffer := Some(if reply.NotFound? then Nil else Err), calls := u.calls)
  {
    more := es;
    ExtendRun(s, more, Start(i));
    more := more + [Start(i)];
    ExtendRun(s, more, Select(i));
    more := more + [Select(i)];
    ExtendRun(s, more, Evict(i, reply));
    more := more + [Evict(i, reply)];
    ExtendRun(s, more, Send(i));
    more := more + [Send(i)];
  }

  /** The first `k` evictors are done, their nil results received; the others have not started. */
  ghost predicate FirstDone(s: State, pods: seq<Pod>, k: nat) {
    && s.pods == pods && |s.pcs| == |pods| && k <= |pods|
    && (forall i :: 0 <= i < |pods| ==> s.pcs[i] == if i < k then Finished else Starting)
    && s.server.pods == map[] && s.buffer.None? && s.received == k && s.collector.Collecting? && !s.abort
  }

  lemma {:induction false} ReachFirstDone(server: Server, listed: seq<Pod>, filter: Filter, k: nat)
    returns (es: seq<Event>)
    requires server.Valid() && Selected(listed, filter).Some? && k <= |Selected(listed, filter).value|
    ensures IsRun(Begin(server, listed, filter), es)
    ensures FirstDone(After(Begin(server, listed, filter), es), Selected(listed, filter).value, k)
  {
    var s := Begin(server, listed, filter);
    if k == 0 {
      var gone := Change(Server(map[], server.used));
      ExtendRun(s, [], gone);
      es := [] + [gone];
    } else {
      es := ReachFirstDone(server, listed, filter, k - 1);
      es := FinishOne(s, es, k - 1, NotFound);
      ExtendRun(s, es, Receive);
      es := es + [Receive];
    }
  }

  /** The collector stops after `k` results: at the deadline, or because the last one is an error. */
  lemma StopAfter(server: Server, listed: seq<Pod>, filter: Filter, k: nat, byError: bool) returns (es: seq<Event>)
    requires server.Valid() && Selected(listed, filter).Some? && k < |Selected(listed, filter).value|
    requires byError ==> k > 0
    ensures IsRun(Begin(server, listed, filter), es)
    ensures var s := After(Begin(server, listed, filter), es);
            && s.collector == Unwinding(Err) && s.received == k && At(s, k, Starting)
            && s.server.pods == map[] && s.buffer.None? && !s.abort
  {
    var s := Begin(server, listed, filter);
    if byError {
      es := ReachFirstDone(server, listed, filter, k - 1);
      es := FinishOne(s, es, k - 1, Refused);
      ExtendRun(s, es, Receive);
      es := es + [Receive];
    } else {
      es := ReachFirstDone(server, listed, filter, k);
      ExtendRun(s, es, Deadline);
      es := es + [Deadline];
    }
  }

  /** The bound is attained for every number `n` of selected pods and every `k` below it, by an error
      (for `k > 0`) and by the deadline: one more result fills the channel, and the other `n - k - 1`
      evictors can never send. */
  lemma LeakBoundAttained(
    server: Server, node: string, listed: seq<Pod>, filter: Filter, k: nat, byError: bool) returns (es: seq<Event>)
    requires server.Valid() && ListsNode(server, node, listed)
    requires Selected(listed, filter).Some? && k < |Selected(listed, filter).value| && (byError ==> k > 0)
    ensures IsRun(Begin(server, listed, filter), es)
    ensures var end := After(Begin(server, listed, filter), es);
            && !end.collector.Collecting? && end.received == k
            && |end.pcs| - FinishedCount(end.pcs) == |end.pods| - k - 1
            && forall i: nat :: !Enabled(end, Send(i))
  {
    var s := Begin(server, listed, filter);
    es := StopAfter(server, listed, filter, k, byError);
    es := FinishOne(s, es, k, Refused);
    BeginEstablishesInv(server, node, listed, filter);
    RunKeepsInv(s, es, server.used);
  }

  /******* Success is possible *******/

  /** `more` goes on from where `es` ends, with these events. */
  ghost predicate Continues(s: State, es: seq<Event>, more: seq<Event>, events: set<Event>) {
    IsRun(s, es) && IsRun(s, more) && (forall e :: e in es ==> e in more) && forall e :: e in events ==> e in more
  }

  lemma GoOn(s: State, es: seq<Event>, e: Event) returns (more: seq<Event>)
    requires IsRun(s, es) && Enabled(After(s, es), e)
    ensures more == es + [e] && IsRun(s, more) && After(s, more) == Next(After(s, es), e)
  {
    ExtendRun(s, es, e);
    more := es + [e];
  }

  /** The request for pod `i` is put off once and then accepted, and the pod is polled once while it is there. */
  lemma EvictOne(s: State, es: seq<Event>, i: nat) returns (more: seq<Event>)
    requires IsRun(s, es) && At(After(s, es), i, Starting) && !After(s, es).abort
    ensures Continues(s, es, more, {Evict(i, TooManyRequests), Evict(i, Accepted), Poll(i, StillThere)})
    ensures var t, u := After(s, es), After(s, more); u == t.(pcs := t.pcs[i := Polling], calls := u.calls)
  {
    more := GoOn(s, es, Start(i));
    more := GoOn(s, more, Select(i));
    more := GoOn(s, more, Evict(i, TooManyRequests));
    more := GoOn(s, more, Select(i));
    more := GoOn(s, more, Evict(i, Accepted));
    more := GoOn(s, more, Poll(i, StillThere));
  }

  /** The server after a pod was deleted, and maybe created again under its name. */
  function WithoutPod(server: Server, p: Pod, uid: string, again: bool): Server {
    if again then Server(server.pods[RefOf(p) := p.(uid := uid)], server.used + {uid})
    else Server(server.pods - {RefOf(p)}, server.used)
  }

  function GoneReply(again: bool): PollReply { if again then Replaced else Vanished }

  lemma PodMayGo(server: Server, p: Pod, uid: string, again: bool)
    requires server.Valid() && uid !in server.used
    ensures MayBecome(server, WithoutPod(server, p, uid, again))
  {
  }

  /** Pod `i` is gone at the next poll. */
  lemma FindGone(s: State, es: seq<Event>, i: nat, again: bool) returns (more: seq<Event>)
    requires IsRun(s, es) && At(After(s, es), i, Polling) && After(s, es).server.Valid()
    requires After(s, es).pods[i].uid in After(s, es).server.used
    ensures Continues(s, es, more, {Poll(i, GoneReply(again))})
    ensures var t, u := After(s, es), After(s, more); u == t.(pcs := t.pcs[i := Sending(Nil)], server := u.server)
    ensures After(s, more).server.Valid() && After(s, es).server.used <= After(s, more).server.used
  {
    var t := After(s, es);
    var uid := FreshUid(t.server.used);
    PodMayGo(t.server, t.pods[i], uid, again);
    more := GoOn(s, es, Change(WithoutPod(t.server, t.pods[i], uid, again)));
    more := GoOn(s, more, Poll(i, GoneReply(again)));
  }

  lemma ReportGone(s: State, es: seq<Event>, i: nat, again: bool) returns (more: seq<Event>)
    requires IsRun(s, es) && At(After(s, es), i, Polling) && After(s, es).server.Valid()
    requires var t := After(s, es);
             && t.buffer.None? && t.collector.Collecting? && t.received < |t.pods| && t.pods[i].uid in t.server.used
    ensures Continues(s, es, more, {Poll(i, GoneReply(again))})
    ensures var t, u := After(s, es), After(s, more);
            u == t.(pcs := t.pcs[i := Finished], server := u.server, received := t.received + 1)
    ensures After(s, more).server.Valid() && After(s, es).server.used <= After(s, more).server.used
  {
    more := FindGone(s, es, i, again);
    more := GoOn(s, more, Send(i));
    more := GoOn(s, more, Receive);
  }

  /** The first `k` evictors are done, each after a refusal for now and a poll that found its pod. */
  ghost predicate SomeEvicted(s: State, es: seq<Event>, k: nat, again: bool)
    requires IsRun(s, es)
  {
    var t := After(s, es);
    && t.pods == s.pods && k <= |t.pods| && t.server.Valid() && s.server.used <= t.server.used
    && (forall i :: 0 <= i < |t.pods| ==> t.pcs[i] == if i < k then Finished else Starting)
    && t.buffer.None? && t.received == k && t.collector.Collecting? && !t.abort
    && forall i: nat :: i < k ==>
         && Evict(i, TooManyRequests) in es && Evict(i, Accepted) in es
         && Poll(i, StillThere) in es && Poll(i, GoneReply(again)) in es
  }

  lemma {:induction false} EvictFirst(
    server: Server, node: string, listed: seq<Pod>, filter: Filter, k: nat, again: bool)
    returns (es: seq<Event>)
    requires server.Valid() && ListsNode(server, node, listed)
    requires Selected(listed, filter).Some? && k <= |Selected(listed, filter).value|
    ensures IsRun(Begin(server, listed, filter), es) && SomeEvicted(Begin(server, listed, filter), es, k, again)
  {
    var s := Begin(server, listed, filter);
    es := [];
    if k > 0 {
      es := EvictFirst(server, node, listed, filter, k - 1, again);
      BeginKeepsServer(server, node, listed, filter);
      assert s.pods[k - 1] in s.pods;
      es := EvictOneMore(s, es, k - 1, again);
    }
  }

  lemma EvictOneMore(s: State, es: seq<Event>, k: nat, again: bool) returns (more: seq<Event>)
    requires IsRun(s, es) && SomeEvicted(s, es, k, again) && k < |s.pods| && s.pods[k].uid in s.server.used
    ensures IsRun(s, more) && SomeEvicted(s, more, k + 1, again)
  {
    var polling := EvictOne(s, es, k);
    more := ReportGone(s, polling, k, again);
  }

  /** For every server and listing with which no filter fails, some run of the drain succeeds, although each
      request is put off once, each pod is found again once, and each may be replaced under its name. */
  lemma DrainCanSucceed(server: Server, node: string, listed: seq<Pod>, filter: Filter, again: bool)
    returns (es: seq<Event>)
    requires server.Valid() && ListsNode(server, node, listed) && forall p :: p in listed ==> !filter(p).Failed?
    ensures IsRun(Begin(server, listed, filter), es)
    ensures var end := After(Begin(server, listed, filter), es); end.collector == Returned(Nil) && end.abort
    ensures forall i: nat :: i < |Begin(server, listed, filter).pods| ==>
              && Evict(i, TooManyRequests) in es && Evict(i, Accepted) in es
              && Poll(i, StillThere) in es && Poll(i, GoneReply(again)) in es
  {
    SelectedMeaning(listed, filter);
    var s := Begin(server, listed, filter);
    es := EvictFirst(server, node, listed, filter, |s.pods|, again);
    es := GoOn(s, es, Return);
    es := GoOn(s, es, CloseAbort);
  }

  /******* Abort *******/

  function CallsOf(calls: seq<Call>, i: nat): nat {
    if calls == [] then 0
    else CallsOf(calls[..|calls| - 1], i) + if calls[|calls| - 1].evictor == i then 1 else 0
  }

  function PastSelect(s: State, i: nat): nat { if At(s, i, Issuing) then 1 else 0 }

  lemma StepAfterAbort(s: State, e: Event, i: nat)
    requires |s.pcs| == |s.pods| && Enabled(s, e) && s.abort
    ensures Next(s, e).abort
    ensures CallsOf(Next(s, e).calls, i) + PastSelect(Next(s, e), i) <= CallsOf(s.calls, i) + PastSelect(s, i)
  {
    if e.Evict? {
      assert Next(s, e).calls[..|s.calls|] == s.calls;
    }
  }

  /** After `abort` is closed an evictor makes at most one more Evict request, and none unless it
      was already past its `select`. */
  lemma {:induction false} NoEvictAfterAbort(s: State, es: seq<Event>, i: nat)
    requires IsRun(s, es) && s.abort
    ensures CallsOf(After(s, es).calls, i) <= CallsOf(s.calls, i) + PastSelect(s, i)
    decreases |es|
  {
    if es != [] {
      StepAfterAbort(s, es[0], i);
      NoEvictAfterAbort(Next(s, es[0]), es[1..], i);
    }
  }

  function SelectsOf(es: seq<Event>, i: nat): nat {
    if es == [] then 0 else (if es[0] == Select(i) then 1 else 0) + SelectsOf(es[1..], i)
  }

  predicate MaySelect(s: State, i: nat) { At(s, i, Starting) || At(s, i, AtSelect) || At(s, i, Issuing) }

  /** And it comes to its `select` at most once more: there it ends with an error. */
  lemma {:induction false} AbortEndsRetries(s: State, es: seq<Event>, i: nat)
    requires IsRun(s, es) && s.abort
    ensures SelectsOf(es, i) <= if MaySelect(s, i) then 1 else 0
    decreases |es|
  {
    if es != [] {
      AbortEndsRetries(Next(s, es[0]), es[1..], i);
    }
  }

  /******* Progress *******/

  /** The collector is never stuck: while it waits, and before any deadline, either it can act or
      some evictor can. */
  lemma CollectorIsNeverStuck(s: State, listedUids: set<string>)
    requires Inv(s, listedUids) && s.collector.Collecting?
    ensures || Enabled(s, Return) || Enabled(s, Receive)
            || exists i: nat :: Enabled(s, Start(i)) || Enabled(s, Select(i)) || Enabled(s, Evict(i, Accepted))
                                || Enabled(s, Poll(i, StillThere)) || Enabled(s, Send(i))
  {
    FinishedCountBounds(s.pcs);
    if s.buffer.None? && s.received != |s.pods| {
      var i :| 0 <= i < |s.pcs| && !s.pcs[i].Finished?;
      match s.pcs[i]
      case Starting => assert Enabled(s, Start(i));
      case AtSelect => assert Enabled(s, Select(i));
      case Issuing => assert Enabled(s, Evict(i, Accepted));
      case Polling => assert Enabled(s, Poll(i, StillThere));
      case Sending(_) => assert Enabled(s, Send(i));
    }
  }
}
