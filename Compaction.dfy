/** Compaction ("fit"): live ids are renumbered by rank onto 1..N, and every key,
    target and reverse-index member is rewritten through that renumbering. */
module Compaction {
  import opened Wrappers
  import opened Seqs
  import opened Adjacency

  lemma {:induction false} MinExists(S: set<nat>)
    requires S != {}
    ensures exists m :: m in S && forall j :: j in S ==> m <= j
    decreases S
  {
    var x :| x in S;
    if S == {x} {
      assert forall j :: j in S ==> x <= j;
    } else {
      MinExists(S - {x});
      var m :| m in S - {x} && forall j :: j in S - {x} ==> m <= j;
      MinOfInsert(S, x, m);
    }
  }

  lemma MinOfInsert(S: set<nat>, x: nat, m: nat)
    requires x in S && m in S - {x} && forall j :: j in S - {x} ==> m <= j
    ensures exists w :: w in S && forall j :: j in S ==> w <= j
  {
    var w := if x < m then x else m;
    forall j | j in S
      ensures w <= j
    {
      if j != x {
        assert j in S - {x};
      }
    }
    assert w in S;
  }

  /** The smallest element of a non-empty set of ids. */
  ghost function Min(S: set<nat>): (m: nat)
    requires S != {}
    ensures m in S && forall j :: j in S ==> m <= j
  {
    MinExists(S);
    var m :| m in S && forall j :: j in S ==> m <= j; m
  }

  /** The ids of a set in ascending order (what `sort` makes of the collected keys). */
  ghost function SortedKeys(S: set<nat>): (r: seq<nat>)
    ensures |r| == |S|
    ensures forall i :: 0 <= i < |r| ==> r[i] in S
    ensures forall i, j :: 0 <= i < j < |r| ==> r[i] < r[j]
    decreases S
  {
    if S == {} then []
    else
      var m := Min(S);
      [m] + SortedKeys(S - {m})
  }

  /** Every id of the set occurs in its ascending enumeration. */
  lemma {:induction false} SortedKeysCover(S: set<nat>, k: nat)
    requires k in S
    ensures k in SortedKeys(S)
    decreases S
  {
    var m := Min(S);
    if k != m {
      SortedKeysCover(S - {m}, k);
    }
  }

  /** The map `get_new_ids_after_fit` builds: the i-th smallest live id goes to i + 1. */
  ghost function RankMap(S: set<nat>): map<nat, nat>
  {
    map k | k in S :: IndexOf(SortedKeys(S), k) + 1
  }

  /** In an ascending sequence, an element's first occurrence is its position. */
  lemma RankAt(r: seq<nat>, i: nat)
    requires forall a, b :: 0 <= a < b < |r| ==> r[a] < r[b]
    requires i < |r|
    ensures IndexOf(r, r[i]) == i
  {
    var j := IndexOf(r, r[i]);
    assert r[j] == r[i];
  }

  ghost predicate Injective(ids: map<nat, nat>)
  {
    forall a, b :: a in ids && b in ids && ids[a] == ids[b] ==> a == b
  }

  /** `ids` maps every id it knows to itself. */
  ghost predicate IsIdentity(ids: map<nat, nat>)
  {
    forall k :: k in ids ==> ids[k] == k
  }

  /** The set {1, ..., n}. */
  ghost function Interval(n: nat): (r: set<nat>)
    ensures forall k :: k in r <==> 1 <= k <= n
    ensures |r| == n
  {
    if n == 0 then {} else Interval(n - 1) + {n}
  }

  /** The i-th smallest id is renumbered i + 1. */
  lemma RankMapAt(S: set<nat>, i: nat)
    requires i < |S|
    ensures SortedKeys(S)[i] in RankMap(S) && RankMap(S)[SortedKeys(S)[i]] == i + 1
  {
    RankAt(SortedKeys(S), i);
  }

  /** The rank map is an order-preserving bijection from the live ids onto 1..N. */
  lemma RankMapIsOrderBijection(S: set<nat>)
    ensures RankMap(S).Keys == S
    ensures RankMap(S).Values == Interval(|S|)
    ensures forall k :: k in S ==> 1 <= RankMap(S)[k] <= |S|
    ensures forall a, b :: a in S && b in S ==> (a < b <==> RankMap(S)[a] < RankMap(S)[b])
    ensures Injective(RankMap(S))
  {
    RankMapKeys(S);
    RankMapOnto(S);
    RankMapAscending(S);
    RankMapRange(S);
    RankMapInjective(S);
  }

  /** What renaming through the rank map needs: it is defined on every live id
      and sends no two of them to the same id. */
  lemma RankMapRenames(S: set<nat>)
    ensures RankMap(S).Keys == S && Injective(RankMap(S))
  {
    RankMapInjective(S);
  }

  lemma RankMapKeys(S: set<nat>)
    ensures RankMap(S).Keys == S
  {
  }

  lemma RankMapRange(S: set<nat>)
    ensures forall k :: k in S ==> 1 <= RankMap(S)[k] <= |S|
  {
    forall k | k in S
      ensures 1 <= RankMap(S)[k] <= |S|
    {
      SortedKeysCover(S, k);
    }
  }

  lemma RankMapInjective(S: set<nat>)
    ensures Injective(RankMap(S))
  {
    var ids := RankMap(S);
    forall a, b | a in ids && b in ids && ids[a] == ids[b]
      ensures a == b
    {
      RankOrder(S, a, b);
      RankOrder(S, b, a);
    }
  }

  lemma RankMapAscending(S: set<nat>)
    ensures forall a, b :: a in S && b in S ==> (a < b <==> RankMap(S)[a] < RankMap(S)[b])
  {
    forall a, b | a in S && b in S
      ensures a < b <==> RankMap(S)[a] < RankMap(S)[b]
    {
      RankOrder(S, a, b);
    }
  }

  lemma RankOrder(S: set<nat>, a: nat, b: nat)
    requires a in S && b in S
    ensures a < b <==> RankMap(S)[a] < RankMap(S)[b]
  {
    var r := SortedKeys(S);
    SortedKeysCover(S, a);
    SortedKeysCover(S, b);
    var i, j := IndexOf(r, a), IndexOf(r, b);
    assert r[i] == a && r[j] == b;
  }

  lemma RankMapOnto(S: set<nat>)
    ensures RankMap(S).Values == Interval(|S|)
  {
    RankMapCoversInterval(S);
    RankMapWithinInterval(S);
  }

  lemma RankMapCoversInterval(S: set<nat>)
    ensures Interval(|S|) <= RankMap(S).Values
  {
    var ids := RankMap(S);
    forall n | n in Interval(|S|)
      ensures n in ids.Values
    {
      RankMapAt(S, n - 1);
      assert ids[SortedKeys(S)[n - 1]] in ids.Values;
    }
  }

  lemma RankMapWithinInterval(S: set<nat>)
    ensures RankMap(S).Values <= Interval(|S|)
  {
    var ids := RankMap(S);
    RankMapRange(S);
    forall n | n in ids.Values
      ensures n in Interval(|S|)
    {
      var k :| k in ids && ids[k] == n;
    }
  }

  /** A map that numbers the ascending enumeration of `S` from 1 is the rank map. */
  lemma RankMapFromSorted(S: set<nat>, ids: map<nat, nat>)
    requires forall k :: k in ids <==> k in SortedKeys(S)
    requires forall j | 0 <= j < |SortedKeys(S)| :: ids[SortedKeys(S)[j]] == j + 1
    ensures ids == RankMap(S)
  {
    RankMapKeys(S);
    SortedIdsKeys(S, ids);
    SortedIdsRanks(S, ids);
    var m := RankMap(S);
    assert ids.Keys == m.Keys;
    SameEntries(ids, m);
  }

  lemma SortedIdsRanks(S: set<nat>, ids: map<nat, nat>)
    requires forall k :: k in ids <==> k in SortedKeys(S)
    requires forall j | 0 <= j < |SortedKeys(S)| :: ids[SortedKeys(S)[j]] == j + 1
    ensures forall k | k in ids :: k in RankMap(S) && ids[k] == RankMap(S)[k]
  {
    forall k | k in ids
      ensures k in RankMap(S) && ids[k] == RankMap(S)[k]
    {
      RankMapKeys(S);
      SortedIdsKeys(S, ids);
      RankFromSortedAt(S, ids, k);
    }
  }

  /** Two maps with the same keys and the same value at each key are equal. */
  lemma SameEntries(a: map<nat, nat>, b: map<nat, nat>)
    requires a.Keys == b.Keys
    requires forall k | k in a :: k in b && a[k] == b[k]
    ensures a == b
  {
  }

  lemma SortedIdsKeys(S: set<nat>, ids: map<nat, nat>)
    requires forall k :: k in ids <==> k in SortedKeys(S)
    ensures ids.Keys == S
  {
    var r := SortedKeys(S);
    forall k | k in S
      ensures k in ids
    {
      SortedKeysCover(S, k);
    }
    forall k | k in ids
      ensures k in S
    {
      assert k in r;
      var j :| 0 <= j < |r| && r[j] == k;
    }
  }

  lemma RankFromSortedAt(S: set<nat>, ids: map<nat, nat>, k: nat)
    requires forall k :: k in ids <==> k in SortedKeys(S)
    requires forall j | 0 <= j < |SortedKeys(S)| :: ids[SortedKeys(S)[j]] == j + 1
    requires k in S
    ensures k in ids && ids[k] == RankMap(S)[k]
  {
    var r := SortedKeys(S);
    SortedKeysCover(S, k);
    var j := IndexOf(r, k);
    assert r[j] == k && ids[r[j]] == j + 1;
    RankOfSortedAt(S, j, k);
  }

  /** On the ids 1..N the rank map changes nothing. */
  lemma RankMapOfIntervalIsIdentity(n: nat)
    ensures IsIdentity(RankMap(Interval(n)))
  {
    var S := Interval(n);
    RankMapKeys(S);
    forall k | k in RankMap(S)
      ensures RankMap(S)[k] == k
    {
      RankOfIntervalAt(n, k);
    }
  }

  lemma RankOfIntervalAt(n: nat, k: nat)
    requires 1 <= k <= n
    ensures k in RankMap(Interval(n)) && RankMap(Interval(n))[k] == k
  {
    SortedIntervalAt(n, k - 1);
    RankOfSortedAt(Interval(n), k - 1, k);
  }

  lemma RankOfSortedAt(S: set<nat>, i: nat, k: nat)
    requires i < |S| && SortedKeys(S)[i] == k
    ensures k in RankMap(S) && RankMap(S)[k] == i + 1
  {
    RankMapAt(S, i);
  }

  lemma SortedIntervalAt(n: nat, i: nat)
    requires i < n
    ensures SortedKeys(Interval(n))[i] == i + 1
  {
    var r := SortedKeys(Interval(n));
    AscendingFloor(r, i);
    AscendingCeiling(r, i, n);
  }

  lemma {:induction false} AscendingFloor(r: seq<nat>, i: nat)
    requires forall j :: 0 <= j < |r| ==> 1 <= r[j]
    requires forall a, b :: 0 <= a < b < |r| ==> r[a] < r[b]
    requires i < |r|
    ensures r[i] >= i + 1
  {
    if i > 0 {
      AscendingFloor(r, i - 1);
    }
  }

  lemma {:induction false} AscendingCeiling(r: seq<nat>, i: nat, n: nat)
    requires |r| == n
    requires forall j :: 0 <= j < |r| ==> r[j] <= n
    requires forall a, b :: 0 <= a < b < |r| ==> r[a] < r[b]
    requires i < |r|
    ensures r[i] <= i + 1
    decreases |r| - i
  {
    if i < |r| - 1 {
      AscendingCeiling(r, i + 1, n);
    }
  }

  /** A target map with every target renamed. */
  function RenameOut<E>(out: map<nat, seq<Option<E>>>, ids: map<nat, nat>): (r: map<nat, seq<Option<E>>>)
    requires out.Keys <= ids.Keys && Injective(ids)
    ensures forall t :: t in out ==> ids[t] in r && r[ids[t]] == out[t]
  {
    map t | t in out :: ids[t] := out[t]
  }

  /** The forward map with every vertex and target renamed and labels kept. */
  function RenameData<V, E>(data: map<nat, Vertex<V, E>>, ids: map<nat, nat>): (r: map<nat, Vertex<V, E>>)
    requires data.Keys <= ids.Keys && Injective(ids)
    requires TargetsIn(data, ids.Keys)
    ensures forall k :: k in data ==> ids[k] in r && r[ids[k]] == Vertex(data[k].tag, RenameOut(data[k].out, ids))
  {
    map k | k in data :: ids[k] := Vertex(data[k].tag, RenameOut(data[k].out, ids))
  }

  /** The reverse index with every key and member renamed. */
  function RenameRev(rev: map<nat, set<nat>>, ids: map<nat, nat>): (r: map<nat, set<nat>>)
    requires rev.Keys <= ids.Keys && Injective(ids)
    requires MembersIn(rev, ids.Keys)
    ensures forall k :: k in rev ==> ids[k] in r && r[ids[k]] == set j | j in rev[k] :: ids[j]
  {
    map k | k in rev :: ids[k] := set j | j in rev[k] :: ids[j]
  }

  /** The store with every id renamed through `ids`, and the given counter. */
  function Renamed<V, E>(s: Store<V, E>, ids: map<nat, nat>, last: nat): Store<V, E>
    requires IdsLive(s) && s.data.Keys == ids.Keys && Injective(ids)
  {
    Store(RenameData(s.data, ids), RenameRev(s.rev, ids), last)
  }

  /** `fit` on the value of a graph; the counter becomes the number of vertices. */
  ghost function FitStore<V, E>(s: Store<V, E>): Store<V, E>
    requires IdsLive(s)
  {
    RankMapRenames(s.data.Keys);
    Renamed(s, RankMap(s.data.Keys), |s.data|)
  }

  /** After `fit` the ids are exactly 1..N and the counter is N. */
  lemma FitIsDense<V, E>(s: Store<V, E>)
    requires IdsLive(s)
    ensures FitStore(s).data.Keys == Interval(|s.data|)
    ensures |FitStore(s).data| == |s.data| && FitStore(s).last == |s.data|
    ensures Dense(FitStore(s)) && CounterCovers(FitStore(s))
  {
    FitKeys(s);
    IntervalIsDense(FitStore(s));
  }

  lemma FitKeys<V, E>(s: Store<V, E>)
    requires IdsLive(s)
    ensures FitStore(s).data.Keys == Interval(|s.data|) && FitStore(s).last == |s.data|
  {
    RankMapRenames(s.data.Keys);
    RankMapOnto(s.data.Keys);
    RenamedKeys(s, RankMap(s.data.Keys), |s.data|);
  }

  /** A store whose ids are 1..last is dense and its counter covers it. */
  lemma IntervalIsDense<V, E>(g: Store<V, E>)
    requires g.data.Keys == Interval(g.last)
    ensures |g.data| == g.last && Dense(g) && CounterCovers(g)
  {
    assert |g.data| == |g.data.Keys|;
  }

  lemma RenamedKeys<V, E>(s: Store<V, E>, ids: map<nat, nat>, last: nat)
    requires IdsLive(s) && s.data.Keys == ids.Keys && Injective(ids)
    ensures Renamed(s, ids, last).data.Keys == ids.Values
  {
    var g := Renamed(s, ids, last);
    forall n | n in g.data
      ensures n in ids.Values
    {
      var k := RenamedSource(s.data, ids, n);
    }
    forall n | n in ids.Values
      ensures n in g.data
    {
      var k :| k in ids && ids[k] == n;
    }
  }

  /** `w` is `v` renamed through `ids`: same label, the renamed targets and
      nothing else, and each edge list unchanged under its renamed target. */
  ghost predicate VertexRenamed<V, E>(w: Vertex<V, E>, v: Vertex<V, E>, ids: map<nat, nat>)
    requires v.out.Keys <= ids.Keys
  {
    && w.tag == v.tag
    && w.out.Keys == (set t | t in v.out :: ids[t])
    && (forall t | t in v.out :: ids[t] in w.out && w.out[ids[t]] == v.out[t])
  }

  /** `fit` renames every vertex by its rank, keeps its label, and keeps each edge
      list, in order, under the renamed pair; its targets are exactly the renamed
      old targets. */
  lemma FitRenames<V, E>(s: Store<V, E>)
    requires IdsLive(s)
    ensures forall k | k in s.data ::
      && RankMap(s.data.Keys)[k] in FitStore(s).data
      && VertexRenamed(FitStore(s).data[RankMap(s.data.Keys)[k]], s.data[k], RankMap(s.data.Keys))
  {
    RankMapRenames(s.data.Keys);
    var ids := RankMap(s.data.Keys);
    assert FitStore(s) == Renamed(s, ids, |s.data|);
    forall k | k in s.data
      ensures ids[k] in FitStore(s).data && VertexRenamed(FitStore(s).data[ids[k]], s.data[k], ids)
    {
      RenamedVertexAt(s, ids, |s.data|, k);
    }
  }

  lemma RenamedVertexAt<V, E>(s: Store<V, E>, ids: map<nat, nat>, last: nat, k: nat)
    requires IdsLive(s) && s.data.Keys == ids.Keys && Injective(ids) && k in s.data
    ensures ids[k] in Renamed(s, ids, last).data
    ensures VertexRenamed(Renamed(s, ids, last).data[ids[k]], s.data[k], ids)
  {
    RenamedOutKeys(s.data[k].out, ids);
  }

  /** `fit` renames the reverse index the same way: each reverse set moves to its
      renamed target and holds the renamed sources. */
  lemma FitRenamesReverse<V, E>(s: Store<V, E>)
    requires IdsLive(s)
    ensures FitStore(s).rev.Keys == set t | t in s.rev :: RankMap(s.data.Keys)[t]
    ensures forall t | t in s.rev ::
      FitStore(s).rev[RankMap(s.data.Keys)[t]] == set j | j in s.rev[t] :: RankMap(s.data.Keys)[j]
  {
    RankMapRenames(s.data.Keys);
    var ids := RankMap(s.data.Keys);
    assert FitStore(s).rev == RenameRev(s.rev, ids);
    RenamedRevKeys(s.rev, ids);
  }

  /** The renamed reverse index has exactly the renamed keys. */
  lemma RenamedRevKeys(rev: map<nat, set<nat>>, ids: map<nat, nat>)
    requires rev.Keys <= ids.Keys && Injective(ids)
    requires MembersIn(rev, ids.Keys)
    ensures RenameRev(rev, ids).Keys == set t | t in rev :: ids[t]
  {
    forall n | n in RenameRev(rev, ids)
      ensures n in set t | t in rev :: ids[t]
    {
      var k :| k in rev && ids[k] == n;
    }
  }

  /** The renamed target map has exactly the renamed targets. */
  lemma RenamedOutKeys<E>(out: map<nat, seq<Option<E>>>, ids: map<nat, nat>)
    requires out.Keys <= ids.Keys && Injective(ids)
    ensures RenameOut(out, ids).Keys == set t | t in out :: ids[t]
  {
    forall n | n in RenameOut(out, ids)
      ensures n in set t | t in out :: ids[t]
    {
      var t := RenamedTarget(out, ids, n);
    }
  }

  /** The pieces `fit` assigns: the renamed reverse index, the renamed forward map,
      and its size as the counter. */
  lemma FitStoreParts<V, E>(s: Store<V, E>, ids: map<nat, nat>)
    requires IdsLive(s) && ids == RankMap(s.data.Keys)
    ensures s.data.Keys == ids.Keys && Injective(ids)
    ensures FitStore(s) == Renamed(s, ids, |s.data|)
    ensures |Renamed(s, ids, |s.data|).data| == |s.data|
  {
    RankMapRenames(s.data.Keys);
    FitIsDense(s);
  }

  /** `fit` keeps the store invariant, and its counter covers the new ids. */
  lemma FitKeepsValid<V, E>(s: Store<V, E>)
    requires IdsLive(s)
    ensures WellFormed(s) ==> WellFormed(FitStore(s)) && CounterCovers(FitStore(s))
  {
    if WellFormed(s) {
      FitPreservesWellFormed(s);
    }
    FitIsDense(s);
  }

  /** `fit` keeps the store invariant. */
  lemma FitPreservesWellFormed<V, E>(s: Store<V, E>)
    requires WellFormed(s)
    ensures WellFormed(FitStore(s))
  {
    RankMapRenames(s.data.Keys);
    RenamePreservesWellFormed(s, RankMap(s.data.Keys), |s.data|);
  }

  lemma RenamePreservesWellFormed<V, E>(s: Store<V, E>, ids: map<nat, nat>, last: nat)
    requires WellFormed(s) && s.data.Keys == ids.Keys && Injective(ids)
    ensures WellFormed(Renamed(s, ids, last))
  {
    RenameKeepsIdsLive(s, ids, last);
    RenamedSameKeys(s, ids, last);
    RenameKeepsForward(s, ids, last);
    RenameKeepsReverse(s, ids, last);
  }

  lemma RenamedSameKeys<V, E>(s: Store<V, E>, ids: map<nat, nat>, last: nat)
    requires IdsLive(s) && s.data.Keys == s.rev.Keys && s.data.Keys == ids.Keys && Injective(ids)
    ensures Renamed(s, ids, last).data.Keys == Renamed(s, ids, last).rev.Keys
  {
    var g := Renamed(s, ids, last);
    forall n | n in g.rev
      ensures n in g.data
    {
      var k :| k in s.rev && ids[k] == n;
    }
    forall n | n in g.data
      ensures n in g.rev
    {
      var k := RenamedSource(s.data, ids, n);
    }
  }

  lemma RenameKeepsForward<V, E>(s: Store<V, E>, ids: map<nat, nat>, last: nat)
    requires WellFormed(s) && s.data.Keys == ids.Keys && Injective(ids)
    ensures ForwardIndexed(Renamed(s, ids, last)) && NoEmptyLists(Renamed(s, ids, last))
  {
    var g := Renamed(s, ids, last);
    forall nk, nt | nk in g.data && nt in g.data[nk].out
      ensures nt in g.rev && nk in g.rev[nt]
      ensures g.data[nk].out[nt] != []
    {
      RenamedForwardEdge(s, ids, last, nk, nt);
    }
  }

  lemma RenameKeepsReverse<V, E>(s: Store<V, E>, ids: map<nat, nat>, last: nat)
    requires WellFormed(s) && s.data.Keys == ids.Keys && Injective(ids)
    ensures ReverseIndexed(Renamed(s, ids, last))
  {
    var g := Renamed(s, ids, last);
    forall nt, nf | nt in g.rev && nf in g.rev[nt]
      ensures nf in g.data && nt in g.data[nf].out
    {
      RenamedReverseEdge(s, ids, last, nt, nf);
    }
  }

  lemma RenamedForwardEdge<V, E>(s: Store<V, E>, ids: map<nat, nat>, last: nat, nk: nat, nt: nat)
    requires WellFormed(s) && s.data.Keys == ids.Keys && Injective(ids)
    requires nk in Renamed(s, ids, last).data && nt in Renamed(s, ids, last).data[nk].out
    ensures nt in Renamed(s, ids, last).rev && nk in Renamed(s, ids, last).rev[nt]
    ensures Renamed(s, ids, last).data[nk].out[nt] != []
  {
    var k := RenamedSource(s.data, ids, nk);
    var t := RenamedTarget(s.data[k].out, ids, nt);
    RenamedMember(s.rev, ids, t, k);
  }

  lemma RenamedReverseEdge<V, E>(s: Store<V, E>, ids: map<nat, nat>, last: nat, nt: nat, nf: nat)
    requires WellFormed(s) && s.data.Keys == ids.Keys && Injective(ids)
    requires nt in Renamed(s, ids, last).rev && nf in Renamed(s, ids, last).rev[nt]
    ensures nf in Renamed(s, ids, last).data && nt in Renamed(s, ids, last).data[nf].out
  {
    var t, j := RenamedReverseSource(s.rev, ids, nt, nf);
    assert t in s.data[j].out;
  }

  /** The vertex a renamed vertex came from. */
  lemma RenamedSource<V, E>(data: map<nat, Vertex<V, E>>, ids: map<nat, nat>, n: nat) returns (k: nat)
    requires data.Keys <= ids.Keys && Injective(ids)
    requires TargetsIn(data, ids.Keys)
    requires n in RenameData(data, ids)
    ensures k in data && ids[k] == n
  {
    k :| k in data && ids[k] == n;
  }

  /** The target a renamed target came from. */
  lemma RenamedTarget<E>(out: map<nat, seq<Option<E>>>, ids: map<nat, nat>, n: nat) returns (t: nat)
    requires out.Keys <= ids.Keys && Injective(ids)
    requires n in RenameOut(out, ids)
    ensures t in out && ids[t] == n
  {
    t :| t in out && ids[t] == n;
  }

  /** A reverse-index member is renamed with its key. */
  lemma RenamedMember(rev: map<nat, set<nat>>, ids: map<nat, nat>, t: nat, j: nat)
    requires rev.Keys <= ids.Keys && Injective(ids)
    requires MembersIn(rev, ids.Keys)
    requires t in rev && j in rev[t]
    ensures ids[t] in RenameRev(rev, ids) && ids[j] in RenameRev(rev, ids)[ids[t]]
  {
  }

  /** The key and member a renamed reverse-index member came from. */
  lemma RenamedReverseSource(rev: map<nat, set<nat>>, ids: map<nat, nat>, n: nat, m: nat) returns (t: nat, j: nat)
    requires rev.Keys <= ids.Keys && Injective(ids)
    requires MembersIn(rev, ids.Keys)
    requires n in RenameRev(rev, ids) && m in RenameRev(rev, ids)[n]
    ensures t in rev && j in rev[t] && ids[t] == n && ids[j] == m
  {
    t :| t in rev && ids[t] == n;
    assert RenameRev(rev, ids)[n] == set j | j in rev[t] :: ids[j];
    j :| j in rev[t] && ids[j] == m;
  }

  /** On a graph whose ids are already 1..N, `fit` only resets the counter. */
  lemma FitOfDenseIsIdentity<V, E>(s: Store<V, E>)
    requires IdsLive(s) && Dense(s)
    ensures FitStore(s) == Store(s.data, s.rev, |s.data|)
  {
    var n := |s.data|;
    assert s.data.Keys == Interval(n);
    RankMapOfIntervalIsIdentity(n);
    RankMapInjective(Interval(n));
    RenameByIdentity(s, RankMap(Interval(n)), n);
  }

  lemma RenameByIdentity<V, E>(s: Store<V, E>, ids: map<nat, nat>, last: nat)
    requires IdsLive(s) && s.data.Keys == ids.Keys && Injective(ids)
    requires IsIdentity(ids)
    ensures Renamed(s, ids, last) == Store(s.data, s.rev, last)
  {
    RenameDataByIdentity(s.data, ids);
    RenameRevByIdentity(s.rev, ids);
  }

  lemma RenameOutByIdentity<E>(out: map<nat, seq<Option<E>>>, ids: map<nat, nat>)
    requires out.Keys <= ids.Keys && Injective(ids)
    requires IsIdentity(ids)
    ensures RenameOut(out, ids) == out
  {
    var r := RenameOut(out, ids);
    forall n | n in r
      ensures n in out
    {
      var t := RenamedTarget(out, ids, n);
    }
  }

  lemma RenameDataByIdentity<V, E>(data: map<nat, Vertex<V, E>>, ids: map<nat, nat>)
    requires data.Keys <= ids.Keys && Injective(ids)
    requires TargetsIn(data, ids.Keys)
    requires IsIdentity(ids)
    ensures RenameData(data, ids) == data
  {
    var r := RenameData(data, ids);
    forall n | n in r
      ensures n in data
    {
      var k := RenamedSource(data, ids, n);
    }
    forall k | k in data
      ensures r[k] == data[k]
    {
      RenameOutByIdentity(data[k].out, ids);
    }
  }

  lemma RenameRevByIdentity(rev: map<nat, set<nat>>, ids: map<nat, nat>)
    requires rev.Keys <= ids.Keys && Injective(ids)
    requires MembersIn(rev, ids.Keys)
    requires IsIdentity(ids)
    ensures RenameRev(rev, ids) == rev
  {
    var r := RenameRev(rev, ids);
    forall n | n in r
      ensures n in rev
    {
      var k :| k in rev && ids[k] == n;
    }
    forall k | k in rev
      ensures r[k] == rev[k]
    {
      assert r[k] == set j | j in rev[k] :: ids[j];
    }
  }

  /** Compacting twice is compacting once. */
  lemma FitIsIdempotent<V, E>(s: Store<V, E>)
    requires IdsLive(s)
    ensures IdsLive(FitStore(s))
    ensures FitStore(FitStore(s)) == FitStore(s)
  {
    RankMapRenames(s.data.Keys);
    FitIsDense(s);
    RenameKeepsIdsLive(s, RankMap(s.data.Keys), |s.data|);
    FitOfDenseIsIdentity(FitStore(s));
  }

  lemma RenameKeepsIdsLive<V, E>(s: Store<V, E>, ids: map<nat, nat>, last: nat)
    requires IdsLive(s) && s.data.Keys == ids.Keys && Injective(ids)
    ensures IdsLive(Renamed(s, ids, last))
  {
    var g := Renamed(s, ids, last);
    forall n | n in g.rev
      ensures n in g.data
    {
      var k :| k in s.rev && ids[k] == n;
    }
    forall n, m | n in g.rev && m in g.rev[n]
      ensures m in g.data
    {
      var k :| k in s.rev && ids[k] == n;
      assert g.rev[n] == set j | j in s.rev[k] :: ids[j];
      var j :| j in s.rev[k] && ids[j] == m;
    }
    forall n, m | n in g.data && m in g.data[n].out
      ensures m in g.data
    {
      var k :| k in s.data && ids[k] == n;
      var t :| t in s.data[k].out && ids[t] == m;
    }
  }
}
