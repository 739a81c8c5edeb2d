/** The multigraph object: the three fields of the store, updated in place by
    the mutation methods, and `fit`, which renumbers the vertices. */
module Graphs {
  import opened Wrappers
  import opened Seqs
  import opened Adjacency
  import opened Compaction
  import opened Operations

  class Graph<V, E(==)> {
    var data: map<nat, Vertex<V, E>>
    var rev: map<nat, set<nat>>
    var last: nat

    /** The three fields as one store value. */
    function Value(): Store<V, E>
      reads this
    {
      Store(data, rev, last)
    }

    /** The invariant the mutations keep: the indices agree and the counter
        covers every live id. */
    ghost predicate Valid()
      reads this
    {
      WellFormed(Value()) && CounterCovers(Value())
    }

    /** `new`: no vertices, no edges, counter 0. */
    constructor ()
      ensures Value() == Store(map[], map[], 0)
      ensures Valid()
    {
      data := map[];
      rev := map[];
      last := 0;
    }

    /** The struct literal `Graph { data, reversed_edges, last_vertex_id }`. */
    constructor Of(data: map<nat, Vertex<V, E>>, rev: map<nat, set<nat>>, last: nat)
      ensures Value() == Store(data, rev, last)
    {
      this.data := data;
      this.rev := rev;
      this.last := last;
    }

    /** `add_vertex`: the new id is the old counter plus one. */
    method AddVertex(tag: V) returns (id: nat)
      modifies this
      ensures id == old(last) + 1 && id == last
      ensures Value() == AddedVertex(old(Value()), tag)
      ensures old(Valid()) ==> Valid()
    {
      last := last + 1;
      data := data[last := Vertex(Some(tag), map[])];
      rev := rev[last := {}];
      id := last;
      if old(Valid()) {
        AddVertexPreservesWellFormed(old(Value()), tag);
      }
    }

    /** `remove_vertex`: an absent id changes nothing; otherwise the vertex is
        unlinked from its targets' reverse sets, deleted, unlinked from its sources'
        target maps, and its reverse set deleted. */
    method RemoveVertex(id: nat)
      modifies this
      ensures Value() == RemovedVertex(old(Value()), id)
      ensures old(Valid()) ==> Valid()
    {
      if id !in data {
        return;
      }
      UnlinkTargets(id, data[id].out.Keys);
      data := data - {id};
      if id in rev {
        UnlinkSources(id, rev[id]);
      }
      rev := rev - {id};
      if old(Valid()) {
        RemoveVertexKeepsValid(old(Value()), id);
      }
    }

    /** The first loop of `remove_vertex`: drop `id` from the reverse set of each
        of its targets that has one. */
    method UnlinkTargets(id: nat, targets: set<nat>)
      modifies this
      ensures rev == DropSource(old(rev), id, targets)
      ensures data == old(data) && last == old(last)
    {
      var todo := targets;
      while todo != {}
        invariant todo <= targets
        invariant rev == DropSource(old(rev), id, targets - todo)
        invariant data == old(data) && last == old(last)
        decreases |todo|
      {
        var t :| t in todo;
        DropSourceStep(old(rev), id, targets - todo, t);
        if t in rev {
          rev := rev[t := rev[t] - {id}];
        }
        assert targets - (todo - {t}) == (targets - todo) + {t};
        todo := todo - {t};
      }
    }

    /** The second loop of `remove_vertex`: drop the edges into `id` from each of
        its sources that is still a vertex. */
    method UnlinkSources(id: nat, sources: set<nat>)
      modifies this
      ensures data == DropTarget(old(data), id, sources)
      ensures rev == old(rev) && last == old(last)
    {
      var rest := sources;
      while rest != {}
        invariant rest <= sources
        invariant data == DropTarget(old(data), id, sources - rest)
        invariant rev == old(rev) && last == old(last)
        decreases |rest|
      {
        var k :| k in rest;
        DropTargetStep(old(data), id, sources - rest, k);
        if k in data {
          data := data[k := Vertex(data[k].tag, data[k].out - {id})];
        }
        assert sources - (rest - {k}) == (sources - rest) + {k};
        rest := rest - {k};
      }
    }

    /** `add_edge`: with both endpoints present, append the label to the pair's
        list, creating it (and the reverse membership) for a first edge. */
    method AddEdge(f: nat, t: nat, l: E)
      modifies this
      ensures Value() == AddedEdge(old(Value()), f, t, l)
      ensures old(Valid()) ==> Valid()
    {
      if f in data && t in rev {
        var v := data[f];
        if t in v.out {
          data := data[f := Vertex(v.tag, v.out[t := v.out[t] + [Some(l)]])];
        } else {
          data := data[f := Vertex(v.tag, v.out[t := [Some(l)]])];
          rev := rev[t := rev[t] + {f}];
        }
      }
      if old(Valid()) {
        AddEdgePreservesWellFormed(old(Value()), f, t, l);
      }
    }

    /** `remove_edge`: swap-remove the first `Some(l)` of the pair's list, and drop
        the list and the reverse membership once it is empty. */
    method RemoveEdge(f: nat, t: nat, l: E)
      modifies this
      ensures Value() == RemovedEdge(old(Value()), f, t, l)
      ensures old(Valid()) ==> Valid()
    {
      if f in data && t in rev && t in data[f].out {
        var v := data[f];
        var es := v.out[t];
        var i := IndexOf(es, Some(l));
        if i < |es| {
          var rest := SwapRemove(es, i);
          if rest == [] {
            rev := rev[t := rev[t] - {f}];
            data := data[f := Vertex(v.tag, v.out - {t})];
          } else {
            data := data[f := Vertex(v.tag, v.out[t := rest])];
          }
        }
      }
      if old(Valid()) {
        RemoveEdgePreservesWellFormed(old(Value()), f, t, l);
      }
    }

    /** `get_new_ids_after_fit`: the live ids in ascending order, numbered from 1. */
    method NewIdsAfterFit() returns (ids: map<nat, nat>)
      ensures ids == RankMap(data.Keys)
    {
      var sorted := AscendingIds();
      ids := map[];
      var i := 0;
      while i < |sorted|
        invariant i <= |sorted|
        invariant forall k :: k in ids <==> k in sorted[..i]
        invariant forall j | 0 <= j < i :: ids[sorted[j]] == j + 1
        decreases |sorted| - i
      {
        assert sorted[..i + 1] == sorted[..i] + [sorted[i]];
        ids := ids[sorted[i] := i + 1];
        i := i + 1;
      }
      assert sorted[..i] == sorted;
      RankMapFromSorted(data.Keys, ids);
    }

    /** The live ids collected and sorted; the sort picks the smallest remaining
        id until none is left. */
    method AscendingIds() returns (sorted: seq<nat>)
      ensures sorted == SortedKeys(data.Keys)
    {
      sorted := [];
      var rest := data.Keys;
      while rest != {}
        invariant sorted + SortedKeys(rest) == SortedKeys(data.Keys)
        decreases |rest|
      {
        MinExists(rest);
        var m :| m in rest && forall x | x in rest :: m <= x;
        assert m == Min(rest);
        assert SortedKeys(rest) == [m] + SortedKeys(rest - {m});
        sorted := sorted + [m];
        rest := rest - {m};
      }
    }

    /** `fit`: renumber every id by its rank and set the counter to the number of
        vertices. Every referenced id must be live, or the lookups in the renaming
        fail. */
    method Fit()
      requires IdsLive(Value())
      modifies this
      ensures Value() == FitStore(old(Value()))
      ensures Dense(Value()) && CounterCovers(Value())
      ensures old(Valid()) ==> Valid()
    {
      var ids := NewIdsAfterFit();
      var s := Value();
      FitStoreParts(s, ids);
      var g := Renamed(s, ids, |s.data|);
      rev := g.rev;
      data := g.data;
      last := |data|;
      FitIsDense(s);
      FitKeepsValid(s);
    }
  }
}
