/**
 The taint merge of `TaintNode` (client/client.go 606-651).

 `MergeTaints` says position by position what the result is, for every pair of lists: the first
 existing taint of a key is replaced by the last new taint of that key, and the new taints of
 fresh keys follow in their order.  The in-place loop is proved to compute it, and the laws the
 merge should obey are proved about it.
 */
module Taints {
  datatype Taint = Taint(key: string, value: string, effect: string)

  predicate HasKey(ts: seq<Taint>, key: string) {
    exists i :: 0 <= i < |ts| && ts[i].key == key
  }

  predicate DistinctKeys(ts: seq<Taint>) {
    forall i, j :: 0 <= i < j < |ts| ==> ts[i].key != ts[j].key
  }

  /** Position `i` holds the first taint of its key. */
  predicate IsFirst(ts: seq<Taint>, i: nat)
    requires i < |ts|
  {
    forall j :: 0 <= j < i ==> ts[j].key != ts[i].key
  }

  function LastWith(ts: seq<Taint>, key: string): (t: Taint)
    requires HasKey(ts, key)
    ensures t in ts && t.key == key
  {
    var n := |ts| - 1;
    if ts[n].key == key then ts[n]
    else
      assert forall i :: 0 <= i < n ==> ts[..n][i] == ts[i];
      LastWith(ts[..n], key)
  }

  function FirstWith(ts: seq<Taint>, key: string): (t: Taint)
    requires HasKey(ts, key)
    ensures t in ts && t.key == key
  {
    var n := |ts| - 1;
    assert forall i :: 0 <= i < n ==> ts[..n][i] == ts[i];
    if HasKey(ts[..n], key) then FirstWith(ts[..n], key) else ts[n]
  }

  function Override(existing: seq<Taint>, added: seq<Taint>): (r: seq<Taint>)
    ensures |r| == |existing|
  {
    seq(|existing|, i requires 0 <= i < |existing| =>
      if IsFirst(existing, i) && HasKey(added, existing[i].key) then LastWith(added, existing[i].key)
      else existing[i])
  }

  function Fresh(existing: seq<Taint>, added: seq<Taint>): seq<Taint> {
    if added == [] then []
    else
      var n := |added| - 1;
      Fresh(existing, added[..n]) + if HasKey(existing, added[n].key) then [] else [added[n]]
  }

  function MergeTaints(existing: seq<Taint>, added: seq<Taint>): seq<Taint> {
    Override(existing, added) + Fresh(existing, added)
  }

  /******* The loop *******/

  method ContainTaint(key: string, taints: seq<Taint>) returns (index: int, found: bool)
    ensures found <==> HasKey(taints, key)
    ensures if found then 0 <= index < |taints| && taints[index].key == key && IsFirst(taints, index) else index == -1
  {
    for i := 0 to |taints|
      invariant forall j :: 0 <= j < i ==> taints[j].key != key
    {
      if taints[i].key == key {
        return i, true;
      }
    }
    return -1, false;
  }

  /** Taking one more new taint into account changes the first existing taint of its key, if any. */
  lemma OverrideStep(existing: seq<Taint>, added: seq<Taint>, j: nat)
    requires j < |added|
    ensures var before, after := Override(existing, added[..j]), Override(existing, added[..j + 1]);
            forall i :: 0 <= i < |existing| ==>
              after[i] == if IsFirst(existing, i) && existing[i].key == added[j].key then added[j] else before[i]
  {
    var next := added[..j + 1];
    assert next[..j] == added[..j];
    forall k ensures HasKey(next, k) <==> HasKey(added[..j], k) || k == added[j].key {
      assert next[j].key == added[j].key;
      if HasKey(added[..j], k) {
        var i :| 0 <= i < j && added[..j][i].key == k;
        assert next[i].key == k;
      }
      if HasKey(next, k) && k != added[j].key {
        var i :| 0 <= i < |next| && next[i].key == k;
        assert added[..j][i].key == k;
      }
    }
  }

  lemma SameKeysAsOverride(existing: seq<Taint>, added: seq<Taint>)
    ensures forall i :: 0 <= i < |existing| ==> Override(existing, added)[i].key == existing[i].key
    ensures forall i :: 0 <= i < |existing| ==> (IsFirst(Override(existing, added), i) <==> IsFirst(existing, i))
    ensures forall k :: HasKey(Override(existing, added), k) <==> HasKey(existing, k)
  {
    var over := Override(existing, added);
    assert forall i :: 0 <= i < |existing| ==> over[i].key == existing[i].key;
    forall k ensures HasKey(over, k) <==> HasKey(existing, k) {
      if i :| 0 <= i < |existing| && existing[i].key == k { assert over[i].key == k; }
      if i :| 0 <= i < |over| && over[i].key == k { assert existing[i].key == k; }
    }
  }

  /** The loop of `TaintNode`, on the taints of the fetched node. */
  method MergeInPlace(existing: seq<Taint>, added: seq<Taint>) returns (taints: seq<Taint>)
    ensures taints == MergeTaints(existing, added)
  {
    if existing == [] {                       // nil in the source
      NothingToOverride(added);
      return added;
    }
    taints := existing;
    var merged: seq<Taint> := [];
    for j := 0 to |added|
      invariant taints == Override(existing, added[..j])
      invariant merged == Fresh(existing, added[..j])
    {
      SameKeysAsOverride(existing, added[..j]);
      OverrideStep(existing, added, j);
      assert added[..j + 1][..j] == added[..j];
      var index, found := ContainTaint(added[j].key, taints);
      if found {
        taints := taints[index := added[j]];
      } else {
        merged := merged + [added[j]];
      }
      assert taints == Override(existing, added[..j + 1]);
    }
    assert added[..|added|] == added;
    if |merged| > 0 {
      taints := taints + merged;
    }
  }

  lemma {:induction false} NothingToOverride(added: seq<Taint>)
    ensures MergeTaints([], added) == added
  {
    if added != [] {
      NothingToOverride(added[..|added| - 1]);
    }
  }

  /******* Appending one taint *******/

  lemma HasKeySnoc(ts: seq<Taint>, t: Taint, k: string)
    ensures HasKey(ts + [t], k) <==> HasKey(ts, k) || k == t.key
  {
    if i :| 0 <= i < |ts| && ts[i].key == k { assert (ts + [t])[i].key == k; }
    assert (ts + [t])[|ts|].key == t.key;
  }

  lemma EndsSnoc(ts: seq<Taint>, t: Taint, k: string)
    requires HasKey(ts + [t], k)
    ensures t.key != k ==> HasKey(ts, k)
    ensures LastWith(ts + [t], k) == if t.key == k then t else LastWith(ts, k)
    ensures FirstWith(ts + [t], k) == if HasKey(ts, k) then FirstWith(ts, k) else t
  {
    HasKeySnoc(ts, t, k);
    assert (ts + [t])[..|ts|] == ts;
  }

  lemma FreshSnoc(existing: seq<Taint>, ts: seq<Taint>, t: Taint)
    ensures Fresh(existing, ts + [t]) == Fresh(existing, ts) + if HasKey(existing, t.key) then [] else [t]
  {
    assert (ts + [t])[..|ts|] == ts;
  }

  /******* Fresh taints *******/

  /** The fresh taints carry exactly the new keys that do not exist yet; among them the first and
      the last of a key are those of the new list. */
  lemma {:induction false} FreshEnds(existing: seq<Taint>, added: seq<Taint>, k: string)
    ensures HasKey(Fresh(existing, added), k) <==> HasKey(added, k) && !HasKey(existing, k)
    ensures HasKey(added, k) && !HasKey(existing, k) ==>
              && FirstWith(Fresh(existing, added), k) == FirstWith(added, k)
              && LastWith(Fresh(existing, added), k) == LastWith(added, k)
  {
    if added != [] {
      var front, t := added[..|added| - 1], added[|added| - 1];
      assert added == front + [t];
      FreshEnds(existing, front, k);
      FreshSnoc(existing, front, t);
      HasKeySnoc(front, t, k);
      if HasKey(existing, t.key) {
        assert Fresh(existing, added) == Fresh(existing, front);
      } else {
        HasKeySnoc(Fresh(existing, front), t, k);
      }
      if HasKey(added, k) && !HasKey(existing, k) {
        EndsSnoc(front, t, k);
        if !HasKey(existing, t.key) {
          EndsSnoc(Fresh(existing, front), t, k);
        }
      }
    }
  }

  lemma DistinctSnoc(ts: seq<Taint>, t: Taint)
    ensures DistinctKeys(ts + [t]) <==> DistinctKeys(ts) && !HasKey(ts, t.key)
  {
    var all := ts + [t];
    assert forall i :: 0 <= i < |ts| ==> all[i] == ts[i];
    if DistinctKeys(all) {
      forall i | 0 <= i < |ts| ensures ts[i].key != t.key { assert all[i].key != all[|ts|].key; }
    }
  }

  lemma {:induction false} FreshDistinct(existing: seq<Taint>, added: seq<Taint>)
    requires DistinctKeys(added)
    ensures DistinctKeys(Fresh(existing, added))
  {
    if added != [] {
      var front, t := added[..|added| - 1], added[|added| - 1];
      assert added == front + [t];
      DistinctSnoc(front, t);
      FreshDistinct(existing, front);
      FreshSnoc(existing, front, t);
      FreshEnds(existing, front, t.key);
      if HasKey(existing, t.key) {
        assert Fresh(existing, added) == Fresh(existing, front);
      } else {
        DistinctSnoc(Fresh(existing, front), t);
      }
    }
  }

  lemma {:induction false} FirstWithIsFirst(ts: seq<Taint>, i: nat)
    requires i < |ts| && IsFirst(ts, i)
    ensures FirstWith(ts, ts[i].key) == ts[i]
  {
    var n := |ts| - 1;
    if i < n {
      assert ts[..n][i].key == ts[i].key;
      FirstWithIsFirst(ts[..n], i);
    } else {
      assert !HasKey(ts[..n], ts[i].key);
    }
  }

  lemma SomeFirst(ts: seq<Taint>, k: string) returns (i: nat)
    requires HasKey(ts, k)
    ensures i < |ts| && ts[i].key == k && IsFirst(ts, i)
  {
    i := 0;
    while ts[i].key != k
      invariant i < |ts| && forall j :: 0 <= j < i ==> ts[j].key != k
      decreases |ts| - i
    {
      i := i + 1;
      if i == |ts| { assert false; }
    }
  }

  /******* The merge refines a map override *******/

  /** The taints by key; a later taint of a key wins. */
  function AsMap(ts: seq<Taint>): map<string, Taint> {
    if ts == [] then map[]
    else
      var n := |ts| - 1;
      AsMap(ts[..n])[ts[n].key := ts[n]]
  }

  lemma {:induction false} AsMapMeaning(ts: seq<Taint>, k: string)
    ensures k in AsMap(ts) <==> HasKey(ts, k)
    ensures k in AsMap(ts) ==> AsMap(ts)[k] == LastWith(ts, k)
  {
    if ts != [] {
      var front, t := ts[..|ts| - 1], ts[|ts| - 1];
      assert ts == front + [t];
      AsMapMeaning(front, k);
      HasKeySnoc(front, t, k);
      if HasKey(ts, k) {
        EndsSnoc(front, t, k);
      }
    }
  }

  lemma {:induction false} DistinctLastWith(ts: seq<Taint>, i: nat)
    requires i < |ts| && DistinctKeys(ts)
    ensures HasKey(ts, ts[i].key) && LastWith(ts, ts[i].key) == ts[i]
  {
    var n := |ts| - 1;
    if i < n {
      DistinctLastWith(ts[..n], i);
      assert ts == ts[..n] + [ts[n]];
      HasKeySnoc(ts[..n], ts[n], ts[i].key);
      EndsSnoc(ts[..n], ts[n], ts[i].key);
    }
  }

  lemma HasKeyConcat(a: seq<Taint>, b: seq<Taint>, k: string)
    ensures HasKey(a + b, k) <==> HasKey(a, k) || HasKey(b, k)
  {
    if i :| 0 <= i < |a| && a[i].key == k { assert (a + b)[i].key == k; }
    if i :| 0 <= i < |b| && b[i].key == k { assert (a + b)[|a| + i].key == k; }
  }

  lemma {:induction false} LastWithConcat(a: seq<Taint>, b: seq<Taint>, k: string)
    requires HasKey(a, k) || HasKey(b, k)
    ensures HasKey(a + b, k)
    ensures LastWith(a + b, k) == if HasKey(b, k) then LastWith(b, k) else LastWith(a, k)
  {
    HasKeyConcat(a, b, k);
    if b == [] {
      assert a + b == a;
    } else {
      var front, t := b[..|b| - 1], b[|b| - 1];
      assert b == front + [t] && a + b == (a + front) + [t];
      HasKeySnoc(front, t, k);
      EndsSnoc(a + front, t, k);
      if HasKey(b, k) {
        EndsSnoc(front, t, k);
      }
      if t.key != k {
        HasKeyConcat(a, front, k);
        LastWithConcat(a, front, k);
      }
    }
  }

  lemma MergedKeys(existing: seq<Taint>, added: seq<Taint>, k: string)
    ensures HasKey(MergeTaints(existing, added), k) <==> HasKey(existing, k) || HasKey(added, k)
  {
    SameKeysAsOverride(existing, added);
    FreshEnds(existing, added, k);
    HasKeyConcat(Override(existing, added), Fresh(existing, added), k);
  }

  /******* The first taint of a key *******/

  lemma {:induction false} FirstWithConcat(a: seq<Taint>, b: seq<Taint>, k: string)
    requires HasKey(a, k) || HasKey(b, k)
    ensures HasKey(a + b, k)
    ensures FirstWith(a + b, k) == if HasKey(a, k) then FirstWith(a, k) else FirstWith(b, k)
  {
    HasKeyConcat(a, b, k);
    if b == [] {
      assert a + b == a;
    } else {
      var front, t := b[..|b| - 1], b[|b| - 1];
      assert b == front + [t] && a + b == (a + front) + [t];
      EndsSnoc(a + front, t, k);
      HasKeyConcat(a, front, k);
      HasKeySnoc(front, t, k);
      if HasKey(b, k) {
        EndsSnoc(front, t, k);
      }
      if HasKey(a + front, k) {
        FirstWithConcat(a, front, k);
      }
    }
  }

  /** What lookup by key, which takes the first taint of a key, finds after the merge: for an existing
      key the last new taint of it, if any; for a fresh key the first.  No list need have distinct keys. */
  lemma FirstAfterMerge(existing: seq<Taint>, added: seq<Taint>, k: string)
    requires HasKey(existing, k) || HasKey(added, k)
    ensures HasKey(MergeTaints(existing, added), k)
    ensures FirstWith(MergeTaints(existing, added), k) ==
            if !HasKey(existing, k) then FirstWith(added, k)
            else if HasKey(added, k) then LastWith(added, k)
            else FirstWith(existing, k)
  {
    var over := Override(existing, added);
    SameKeysAsOverride(existing, added);
    FreshEnds(existing, added, k);
    FirstWithConcat(over, Fresh(existing, added), k);
    if HasKey(existing, k) {
      var i := SomeFirst(existing, k);
      FirstWithIsFirst(existing, i);
      FirstWithIsFirst(over, i);
    }
  }

  /******* The map override, and exactly when the merge is one *******/

  predicate OnlyOne(ts: seq<Taint>, k: string) {
    forall i, j :: 0 <= i < j < |ts| ==> ts[i].key != k || ts[j].key != k
  }

  lemma {:induction false} LastPosition(ts: seq<Taint>, k: string) returns (i: nat)
    requires HasKey(ts, k)
    ensures i < |ts| && ts[i].key == k && forall j :: i < j < |ts| ==> ts[j].key != k
  {
    i := |ts| - 1;
    if ts[i].key != k {
      assert ts == ts[..i] + [ts[i]];
      HasKeySnoc(ts[..i], ts[i], k);
      var n := |ts|;
      i := LastPosition(ts[..i], k);
      assert forall j :: i < j < n - 1 ==> ts[j] == ts[..n - 1][j];
    }
  }

  lemma {:induction false} LastWithIsLast(ts: seq<Taint>, i: nat)
    requires i < |ts| && forall j :: i < j < |ts| ==> ts[j].key != ts[i].key
    ensures HasKey(ts, ts[i].key) && LastWith(ts, ts[i].key) == ts[i]
  {
    var n := |ts| - 1;
    if i < n {
      assert ts == ts[..n] + [ts[n]];
      LastWithIsLast(ts[..n], i);
      EndsSnoc(ts[..n], ts[n], ts[i].key);
    }
  }

  /** Only the first taint of a key is replaced, so the last one is the new one iff it is the only one. */
  lemma LastAfterOverride(existing: seq<Taint>, added: seq<Taint>, k: string)
    requires HasKey(existing, k) && HasKey(added, k)
    ensures HasKey(Override(existing, added), k)
    ensures LastWith(Override(existing, added), k) ==
            if OnlyOne(existing, k) then LastWith(added, k) else LastWith(existing, k)
  {
    var over := Override(existing, added);
    SameKeysAsOverride(existing, added);
    var i := LastPosition(existing, k);
    LastWithIsLast(existing, i);
    assert over[i].key == k && forall j :: i < j < |over| ==> over[j].key == existing[j].key;
    LastWithIsLast(over, i);
    if IsFirst(existing, i) {
      forall j, m | 0 <= j < m < |existing| ensures existing[j].key != k || existing[m].key != k {
        assert j < i ==> existing[j].key != k;
      }
    }
  }

  /** If the key is both existing and new, it exists once, or its last taint is the new one already. */
  predicate WhollyReplaced(existing: seq<Taint>, added: seq<Taint>, k: string) {
    HasKey(existing, k) && HasKey(added, k) ==>
      OnlyOne(existing, k) || LastWith(existing, k) == LastWith(added, k)
  }

  lemma UntouchedByOverride(existing: seq<Taint>, added: seq<Taint>, k: string)
    requires HasKey(existing, k) && !HasKey(added, k)
    ensures HasKey(Override(existing, added), k)
    ensures LastWith(Override(existing, added), k) == LastWith(existing, k)
  {
    var over := Override(existing, added);
    SameKeysAsOverride(existing, added);
    var i := LastPosition(existing, k);
    LastWithIsLast(existing, i);
    assert over[i] == existing[i] && forall j :: i < j < |over| ==> over[j].key == existing[j].key;
    LastWithIsLast(over, i);
  }

  /** One key of the merge, read as a map. */
  lemma MergedMapAt(existing: seq<Taint>, added: seq<Taint>, k: string)
    ensures k in AsMap(MergeTaints(existing, added)) <==> k in AsMap(existing) + AsMap(added)
    ensures k in AsMap(existing) + AsMap(added) ==>
              (AsMap(MergeTaints(existing, added))[k] == (AsMap(existing) + AsMap(added))[k]
               <==> WhollyReplaced(existing, added, k))
  {
    var merged, over := MergeTaints(existing, added), Override(existing, added);
    AsMapMeaning(merged, k);
    AsMapMeaning(existing, k);
    AsMapMeaning(added, k);
    MergedKeys(existing, added, k);
    FreshEnds(existing, added, k);
    SameKeysAsOverride(existing, added);
    if HasKey(merged, k) {
      LastWithConcat(over, Fresh(existing, added), k);
      if HasKey(existing, k) {
        if HasKey(added, k) {
          LastAfterOverride(existing, added, k);
        } else {
          UntouchedByOverride(existing, added, k);
        }
      }
    }
  }

  /** By key, the merge is the override of the existing map by the new one exactly under that
      condition.  A node with one key under two effects fails it: only the first taint is replaced. */
  lemma MergeRefinesMapOverrideIff(existing: seq<Taint>, added: seq<Taint>)
    ensures AsMap(MergeTaints(existing, added)) == AsMap(existing) + AsMap(added)
            <==> forall k :: WhollyReplaced(existing, added, k)
  {
    forall k
      ensures k in AsMap(MergeTaints(existing, added)) <==> k in AsMap(existing) + AsMap(added)
      ensures k in AsMap(existing) + AsMap(added) ==>
                (AsMap(MergeTaints(existing, added))[k] == (AsMap(existing) + AsMap(added))[k]
                 <==> WhollyReplaced(existing, added, k))
    {
      MergedMapAt(existing, added, k);
    }
    forall k ensures HasKey(existing, k) <==> k in AsMap(existing) {
      AsMapMeaning(existing, k);
    }
  }

  /** Distinct existing keys suffice. */
  lemma MergeRefinesMapOverride(existing: seq<Taint>, added: seq<Taint>)
    requires DistinctKeys(existing)
    ensures AsMap(MergeTaints(existing, added)) == AsMap(existing) + AsMap(added)
  {
    MergeRefinesMapOverrideIff(existing, added);
  }

  /** Order, distinctness and length: the existing entries keep their places and keys, the fresh
      ones follow, keys stay distinct, and the length grows by the number of fresh keys. */
  lemma MergeKeepsShape(existing: seq<Taint>, added: seq<Taint>)
    requires DistinctKeys(existing) && DistinctKeys(added)
    ensures var merged := MergeTaints(existing, added);
            && DistinctKeys(merged)
            && |merged| == |existing| + |AsMap(added).Keys - AsMap(existing).Keys|
            && forall i :: 0 <= i < |existing| ==> merged[i].key == existing[i].key
  {
    var over, fr := Override(existing, added), Fresh(existing, added);
    SameKeysAsOverride(existing, added);
    FreshDistinct(existing, added);
    forall k ensures HasKey(fr, k) <==> HasKey(added, k) && !HasKey(existing, k) {
      FreshEnds(existing, added, k);
    }
    forall i, j | 0 <= i < |over| && 0 <= j < |fr| ensures over[i].key != fr[j].key {
      assert HasKey(fr, fr[j].key) && HasKey(over, over[i].key);
    }
    forall k ensures k in AsMap(fr).Keys <==> k in AsMap(added).Keys - AsMap(existing).Keys {
      AsMapMeaning(fr, k);
      AsMapMeaning(added, k);
      AsMapMeaning(existing, k);
    }
    assert AsMap(fr).Keys == AsMap(added).Keys - AsMap(existing).Keys;
    DistinctSize(fr);
  }

  lemma {:induction false} DistinctSize(ts: seq<Taint>)
    requires DistinctKeys(ts)
    ensures |AsMap(ts).Keys| == |ts|
  {
    if ts != [] {
      var front, t := ts[..|ts| - 1], ts[|ts| - 1];
      assert ts == front + [t];
      DistinctSnoc(front, t);
      DistinctSize(front);
      AsMapMeaning(front, t.key);
      assert AsMap(ts).Keys == AsMap(front).Keys + {t.key};
    }
  }

  /******* Idempotence *******/

  /** The new list agrees with itself on every key it adds: its first and last taints of a fresh
      key are equal.  Distinct new keys always satisfy it. */
  ghost predicate AgreesOnFreshKeys(existing: seq<Taint>, added: seq<Taint>) {
    forall k :: HasKey(added, k) && !HasKey(existing, k) ==> FirstWith(added, k) == LastWith(added, k)
  }

  lemma ExistingPosition(existing: seq<Taint>, added: seq<Taint>, i: nat)
    requires i < |existing|
    ensures var once := MergeTaints(existing, added);
            IsFirst(once, i) && HasKey(added, once[i].key) ==> once[i] == LastWith(added, once[i].key)
  {
    SameKeysAsOverride(existing, added);
    var once := MergeTaints(existing, added);
    assert forall j :: 0 <= j <= i ==> once[j] == Override(existing, added)[j];
    if IsFirst(once, i) {
      assert IsFirst(Override(existing, added), i);
    }
  }

  lemma FreshPosition(existing: seq<Taint>, added: seq<Taint>, i: nat)
    requires |existing| <= i < |MergeTaints(existing, added)|
    ensures var once := MergeTaints(existing, added);
            && HasKey(added, once[i].key) && !HasKey(existing, once[i].key)
            && (IsFirst(once, i) ==> once[i] == FirstWith(added, once[i].key))
  {
    var once, fr, j := MergeTaints(existing, added), Fresh(existing, added), i - |existing|;
    assert once[i] == fr[j] && HasKey(fr, fr[j].key);
    FreshEnds(existing, added, fr[j].key);
    if IsFirst(once, i) {
      assert forall m :: 0 <= m < j ==> fr[m] == once[|existing| + m];
      FirstWithIsFirst(fr, j);
    }
  }

  /** Applying the merge again only overrides: nothing is fresh any more. */
  lemma SecondMerge(existing: seq<Taint>, added: seq<Taint>)
    ensures var once := MergeTaints(existing, added);
            MergeTaints(once, added) == Override(once, added)
  {
    forall k | HasKey(added, k) ensures HasKey(MergeTaints(existing, added), k) {
      MergedKeys(existing, added, k);
    }
    NothingFresh(MergeTaints(existing, added), added);
  }

  lemma {:induction false} NothingFresh(existing: seq<Taint>, added: seq<Taint>)
    requires forall k :: HasKey(added, k) ==> HasKey(existing, k)
    ensures Fresh(existing, added) == []
  {
    if added != [] {
      var front, t := added[..|added| - 1], added[|added| - 1];
      assert added == front + [t];
      forall k | HasKey(front, k) ensures HasKey(added, k) { HasKeySnoc(front, t, k); }
      HasKeySnoc(front, t, t.key);
      NothingFresh(existing, front);
    }
  }

  /** `TaintNode` is idempotent exactly when the new taints agree on the keys they add. */
  lemma IdempotentIff(existing: seq<Taint>, added: seq<Taint>)
    ensures MergeTaints(MergeTaints(existing, added), added) == MergeTaints(existing, added)
            <==> AgreesOnFreshKeys(existing, added)
  {
    var once := MergeTaints(existing, added);
    var twice := Override(once, added);
    SecondMerge(existing, added);
    forall i | 0 <= i < |existing| ensures twice[i] == once[i] {
      ExistingPosition(existing, added, i);
    }
    if AgreesOnFreshKeys(existing, added) {
      forall i | |existing| <= i < |once| ensures twice[i] == once[i] {
        FreshPosition(existing, added, i);
      }
    }
    SameKeysAsOverride(existing, added);
    forall j | 0 <= j < |existing| ensures HasKey(existing, once[j].key) {
      assert existing[j].key == once[j].key;
    }
    if twice == once {
      forall k | HasKey(added, k) && !HasKey(existing, k) ensures FirstWith(added, k) == LastWith(added, k) {
        MergedKeys(existing, added, k);
        var i := SomeFirst(once, k);
        FreshPosition(existing, added, i);
      }
    }
  }

  /** Distinct new keys are enough. */
  lemma DistinctNewKeysAgree(existing: seq<Taint>, added: seq<Taint>)
    requires DistinctKeys(added)
    ensures MergeTaints(MergeTaints(existing, added), added) == MergeTaints(existing, added)
  {
    forall k | HasKey(added, k) ensures FirstWith(added, k) == LastWith(added, k) {
      var i := SomeFirst(added, k);
      FirstWithIsFirst(added, i);
      DistinctLastWith(added, i);
    }
    IdempotentIff(existing, added);
  }

  /** A repeated fresh key with two values breaks idempotence. */
  lemma RepeatedKeyIsNotIdempotent()
    ensures var added := [Taint("k", "a", "NoSchedule"), Taint("k", "b", "NoSchedule")];
            MergeTaints(MergeTaints([], added), added) != MergeTaints([], added)
  {
    var a, b := Taint("k", "a", "NoSchedule"), Taint("k", "b", "NoSchedule");
    var added := [a, b];
    assert added == [a] + [b] && added[1].key == "k";
    EndsSnoc([a], b, "k");
    assert FirstWith([a], "k") == a by { FirstWithIsFirst([a], 0); assert [a][0].key == "k"; }
    assert HasKey([a], "k") by { assert [a][0].key == "k"; }
    IdempotentIff([], added);
  }
}
