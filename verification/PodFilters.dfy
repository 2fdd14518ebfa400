/**
 The pod filters of client/podfilters.go and the listing loop of `PodList`.

 A Go filter returns `(bool, error)`; here it returns a `Verdict`.  A filter is a function of
 the pod.  The DaemonSet filter also asks the API server about the pod's controller; its answer
 is the parameter `lookup`, a function of the pod, so that two pods of one DaemonSet may still
 get different answers.
 */
module PodFilters {
  import opened Wrappers

  const MIRROR_POD_ANNOTATION := "kubernetes.io/config.mirror"
  const KIND_DAEMON_SET := "DaemonSet"

  datatype Owner = Owner(kind: string, name: string)

  /** `emptyDirs[v]` says whether volume `v` is an 'empty dir' volume. */
  datatype Pod = Pod(
    namespace: string, name: string, uid: string, node: string,
    annotations: map<string, string>, emptyDirs: seq<bool>, controller: Option<Owner>)

  datatype Verdict = Pass | Reject | Failed

  type Filter = Pod -> Verdict

  datatype Lookup = Extant | Missing | LookupFailed

  function MirrorPodFilter(p: Pod): Verdict {
    if MIRROR_POD_ANNOTATION in p.annotations then Reject else Pass
  }

  function LocalStoragePodFilter(p: Pod): Verdict {
    if true in p.emptyDirs then Reject else Pass
  }

  function NewDaemonSetPodFilter(lookup: Pod -> Lookup): Filter {
    (p: Pod) =>
      if p.controller.None? || p.controller.value.kind != KIND_DAEMON_SET then Pass
      else match lookup(p)
        case Missing => Pass
        case LookupFailed => Failed
        case Extant => Reject
  }

  /** Filters run in order; the first one that does not pass decides. */
  function NewPodFilters(filters: seq<Filter>): Filter {
    (p: Pod) => FirstVerdict(filters, p)
  }

  function FirstVerdict(filters: seq<Filter>, p: Pod): Verdict {
    if filters == [] then Pass
    else
      var v := filters[0](p);
      if v.Pass? then FirstVerdict(filters[1..], p) else v
  }

  /** The composition passes exactly the pods every filter passes; it fails exactly when some
      filter fails and every filter before it passes. */
  lemma {:induction false} NewPodFiltersMeaning(filters: seq<Filter>, p: Pod)
    ensures NewPodFilters(filters)(p).Pass? <==> forall i :: 0 <= i < |filters| ==> filters[i](p).Pass?
    ensures NewPodFilters(filters)(p).Failed? <==>
            exists i :: 0 <= i < |filters| && filters[i](p).Failed? && forall j :: 0 <= j < i ==> filters[j](p).Pass?
  {
    if filters != [] && filters[0](p).Pass? {
      var rest := filters[1..];
      NewPodFiltersMeaning(rest, p);
      assert forall i :: 0 < i < |filters| ==> filters[i] == rest[i - 1];
      if i :| 0 <= i < |rest| && rest[i](p).Failed? && forall j :: 0 <= j < i ==> rest[j](p).Pass? {
        assert filters[i + 1](p).Failed?;
      }
      if i :| 0 <= i < |filters| && filters[i](p).Failed? && forall j :: 0 <= j < i ==> filters[j](p).Pass? {
        assert rest[i - 1](p).Failed?;
        forall j | 0 <= j < i - 1 ensures rest[j](p).Pass? {
          assert filters[j + 1](p).Pass?;
        }
      }
    }
  }

  /** The filters `DrainNode` installs, in its order. */
  function DrainFilters(ignoreDaemonSet: bool, deleteLocalData: bool, lookup: Pod -> Lookup): seq<Filter> {
    [MirrorPodFilter]
    + (if ignoreDaemonSet then [NewDaemonSetPodFilter(lookup)] else [])
    + (if !deleteLocalData then [LocalStoragePodFilter] else [])
  }

  predicate DaemonSetPod(p: Pod) {
    p.controller.Some? && p.controller.value.kind == KIND_DAEMON_SET
  }

  /** Which pods a drain is meant to evict, and which make it give up. */
  lemma DrainFiltersMeaning(ignoreDaemonSet: bool, deleteLocalData: bool, lookup: Pod -> Lookup, p: Pod)
    ensures var v := NewPodFilters(DrainFilters(ignoreDaemonSet, deleteLocalData, lookup))(p);
            && (v.Pass? <==>
                && MIRROR_POD_ANNOTATION !in p.annotations
                && (ignoreDaemonSet && DaemonSetPod(p) ==> lookup(p).Missing?)
                && (!deleteLocalData ==> true !in p.emptyDirs))
            && (v.Failed? <==>
                && MIRROR_POD_ANNOTATION !in p.annotations
                && ignoreDaemonSet && DaemonSetPod(p) && lookup(p).LookupFailed?)
  {
    var fs := DrainFilters(ignoreDaemonSet, deleteLocalData, lookup);
    var local := if !deleteLocalData then [LocalStoragePodFilter] else [];
    assert FirstVerdict(local, p) == if !deleteLocalData && true in p.emptyDirs then Reject else Pass;
    if ignoreDaemonSet {
      var rest := [NewDaemonSetPodFilter(lookup)] + local;
      assert fs[1..] == rest && rest[1..] == local;
      assert FirstVerdict(rest, p) ==
        if NewDaemonSetPodFilter(lookup)(p).Pass? then FirstVerdict(local, p) else NewDaemonSetPodFilter(lookup)(p);
    } else {
      assert fs[1..] == local;
    }
  }

  /** What `PodList` returns for a listing: the passing pods in order, or `None` for an error. */
  function Selected(listed: seq<Pod>, filter: Filter): Option<seq<Pod>> {
    if listed == [] then Some([])
    else
      var front := Selected(listed[..|listed| - 1], filter);
      var last := listed[|listed| - 1];
      if front.None? || filter(last).Failed? then None
      else if filter(last).Pass? then Some(front.value + [last])
      else front
  }

  /** An error iff some listed pod makes the filter fail; otherwise exactly the passing pods,
      each as often as it was listed. */
  lemma {:induction false} SelectedMeaning(listed: seq<Pod>, filter: Filter)
    ensures Selected(listed, filter).None? <==> exists p :: p in listed && filter(p).Failed?
    ensures Selected(listed, filter).Some? ==>
              forall p ::
                multiset(Selected(listed, filter).value)[p] == if filter(p).Pass? then multiset(listed)[p] else 0
    ensures Selected(listed, filter).Some? ==>
              forall p :: p in Selected(listed, filter).value <==> p in listed && filter(p).Pass?
  {
    if listed != [] {
      var front, last := listed[..|listed| - 1], listed[|listed| - 1];
      SelectedMeaning(front, filter);
      assert listed == front + [last];
      assert forall p :: p in listed <==> p in front || p == last;
    }
  }

  /** The loop of `PodList` over the pods the API server listed (client.go 295-307). */
  method PodList(listed: seq<Pod>, filter: Filter) returns (included: Option<seq<Pod>>)
    ensures included == Selected(listed, filter)
    ensures included.None? <==> exists p :: p in listed && filter(p).Failed?
    ensures included.Some? ==> forall p :: p in included.value <==> p in listed && filter(p).Pass?
  {
    SelectedMeaning(listed, filter);
    var kept: seq<Pod> := [];
    for i := 0 to |listed|
      invariant Selected(listed[..i], filter) == Some(kept)
    {
      assert listed[..i + 1][..i] == listed[..i];
      var verdict := filter(listed[i]);
      if verdict.Failed? {
        return None;
      }
      if verdict.Pass? {
        kept := kept + [listed[i]];
      }
    }
    assert listed[..|listed|] == listed;
    included := Some(kept);
  }
}
