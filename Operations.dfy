/** The four mutations of the multigraph as transitions of the store value:
    what `add_vertex`, `remove_vertex`, `add_edge` and `remove_edge` leave behind,
    including their "no such vertex / edge" paths, which change nothing. */
module Operations {
  import opened Wrappers
  import opened Seqs
  import opened Adjacency

  /** The labels of the parallel edges from `f` to `t`; empty when there are none. */
  function Labels<V, E>(s: Store<V, E>, f: nat, t: nat): seq<Option<E>>
  {
    if f in s.data && t in s.data[f].out then s.data[f].out[t] else []
  }

  /** Stores with the same vertices and labels list the same `get_vertices_vec` pairs. */
  lemma SameTagsSameVertices<V, E>(s: Store<V, E>, r: Store<V, E>)
    requires r.data.Keys == s.data.Keys
    requires forall k | k in s.data :: r.data[k].tag == s.data[k].tag
    ensures VerticesVec(r) == VerticesVec(s)
  {
    forall p | p in VerticesVec(r)
      ensures p in VerticesVec(s)
    {
      assert p == (p.0, s.data[p.0].tag);
    }
  }

  // ---------------------------------------------------------------- add_vertex

  /** `add_vertex`: bump the counter and store a labelled vertex with no edges
      under the new id (replacing whatever was stored there). */
  function AddedVertex<V, E>(s: Store<V, E>, tag: V): Store<V, E>
  {
    var id := s.last + 1;
    Store(s.data[id := Vertex(Some(tag), map[])], s.rev[id := {}], id)
  }

  /** The new id now holds the new vertex and nothing else changes, except that a
      live vertex that happened to carry the new id (possible only when the counter
      lags behind the ids) and its outgoing edges are replaced. */
  lemma AddVertexEffect<V, E>(s: Store<V, E>, tag: V)
    ensures var r := AddedVertex(s, tag);
      && r.last == s.last + 1
      && VerticesVec(r) == (set p | p in VerticesVec(s) && p.0 != s.last + 1) + {(s.last + 1, Some(tag))}
      && EdgesVec(r) == set e | e in EdgesVec(s) && e.0 != s.last + 1
  {
    var r := AddedVertex(s, tag);
    var n := s.last + 1;
    var w := Store(s.data - {n}, s.rev, s.last);
    VerticesWithout(s, w, n);
    EdgesWithoutSource(s, w, n);
    InsertIsolated(w, r, n, tag);
  }

  /** Inserting an isolated vertex adds its pair and no edge. */
  lemma InsertIsolated<V, E>(w: Store<V, E>, r: Store<V, E>, n: nat, tag: V)
    requires n !in w.data && r.data == w.data[n := Vertex(Some(tag), map[])]
    ensures VerticesVec(r) == VerticesVec(w) + {(n, Some(tag))}
    ensures EdgesVec(r) == EdgesVec(w)
  {
    forall p | p in VerticesVec(r)
      ensures p in VerticesVec(w) + {(n, Some(tag))}
    {
      if p.0 != n {
        assert p == (p.0, w.data[p.0].tag);
      }
    }
    forall p | p in VerticesVec(w)
      ensures p in VerticesVec(r)
    {
      assert p == (p.0, r.data[p.0].tag);
    }
    assert (n, Some(tag)) == (n, r.data[n].tag);
    forall e | e in EdgesVec(w)
      ensures e in EdgesVec(r)
    {
      assert e == (e.0, e.1, r.data[e.0].out[e.1]);
    }
  }

  /** Dropping vertex `n` (and keeping the other labels) drops exactly its pair. */
  lemma VerticesWithout<V, E>(s: Store<V, E>, r: Store<V, E>, n: nat)
    requires r.data.Keys == s.data.Keys - {n}
    requires forall k | k in r.data :: r.data[k].tag == s.data[k].tag
    ensures VerticesVec(r) == set p | p in VerticesVec(s) && p.0 != n
  {
    forall p | p in VerticesVec(r)
      ensures p in VerticesVec(s) && p.0 != n
    {
      assert p == (p.0, s.data[p.0].tag);
    }
  }

  /** Dropping vertex `n` alone drops exactly the triples leaving `n`. */
  lemma EdgesWithoutSource<V, E>(s: Store<V, E>, r: Store<V, E>, n: nat)
    requires r.data == s.data - {n}
    ensures EdgesVec(r) == set e | e in EdgesVec(s) && e.0 != n
  {
    forall e | e in EdgesVec(s) && e.0 != n
      ensures e in EdgesVec(r)
    {
      assert e == (e.0, e.1, r.data[e.0].out[e.1]);
    }
  }

  /** Dropping vertex `n` and every edge into it drops exactly the triples touching `n`. */
  lemma EdgesWithout<V, E>(s: Store<V, E>, r: Store<V, E>, n: nat)
    requires r.data.Keys == s.data.Keys - {n}
    requires forall k | k in r.data :: r.data[k].out == s.data[k].out - {n}
    ensures EdgesVec(r) == set e | e in EdgesVec(s) && e.0 != n && e.1 != n
  {
    forall e | e in EdgesVec(s) && e.0 != n && e.1 != n
      ensures e in EdgesVec(r)
    {
      assert e == (e.0, e.1, r.data[e.0].out[e.1]);
    }
  }

  /** With the counter covering every live id, the new id is fresh and the
      invariants are kept. */
  lemma AddVertexPreservesWellFormed<V, E>(s: Store<V, E>, tag: V)
    requires WellFormed(s) && CounterCovers(s)
    ensures s.last + 1 !in s.data
    ensures WellFormed(AddedVertex(s, tag)) && CounterCovers(AddedVertex(s, tag))
  {
    var r := AddedVertex(s, tag);
    var n := s.last + 1;
    assert n !in s.data;
    forall f, t | f in r.data && t in r.data[f].out
      ensures t in r.rev && f in r.rev[t] && r.data[f].out[t] != []
    {
      assert f != n;
    }
    forall t, f | t in r.rev && f in r.rev[t]
      ensures f in r.data && t in r.data[f].out
    {
      assert t != n;
      assert f in s.data && t in s.data[f].out;
      assert f != n;
    }
  }

  // ------------------------------------------------------------- remove_vertex

  /** The reverse index with `id` taken out of the source sets of the targets in `ts`. */
  function DropSource(rev: map<nat, set<nat>>, id: nat, ts: set<nat>): map<nat, set<nat>>
  {
    map t | t in rev :: if t in ts then rev[t] - {id} else rev[t]
  }

  /** The forward map with the edges into `id` dropped from the sources in `fs`. */
  function DropTarget<V, E>(data: map<nat, Vertex<V, E>>, id: nat, fs: set<nat>): map<nat, Vertex<V, E>>
  {
    map k | k in data :: if k in fs then Vertex(data[k].tag, data[k].out - {id}) else data[k]
  }

  /** One more target handled by the first loop of `remove_vertex`. */
  lemma DropSourceStep(rev0: map<nat, set<nat>>, id: nat, done: set<nat>, t: nat)
    requires t !in done
    ensures var d := DropSource(rev0, id, done);
      t in d ==> d[t := d[t] - {id}] == DropSource(rev0, id, done + {t})
    ensures t !in DropSource(rev0, id, done) ==> DropSource(rev0, id, done) == DropSource(rev0, id, done + {t})
  {
    var d := DropSource(rev0, id, done);
    var e := DropSource(rev0, id, done + {t});
    if t in d {
      assert forall u | u in e :: d[t := d[t] - {id}][u] == e[u];
    }
  }

  /** One more source handled by the second loop of `remove_vertex`. */
  lemma DropTargetStep<V, E>(data0: map<nat, Vertex<V, E>>, id: nat, done: set<nat>, k: nat)
    requires k !in done
    ensures var d := DropTarget(data0, id, done);
      k in d ==> d[k := Vertex(d[k].tag, d[k].out - {id})] == DropTarget(data0, id, done + {k})
    ensures k !in DropTarget(data0, id, done) ==> DropTarget(data0, id, done) == DropTarget(data0, id, done + {k})
  {
    var d := DropTarget(data0, id, done);
    var e := DropTarget(data0, id, done + {k});
    if k in d {
      assert forall u | u in e :: d[k := Vertex(d[k].tag, d[k].out - {id})][u] == e[u];
    }
  }

  /** `remove_vertex`: no-op on an absent id; otherwise drop `id` from the reverse
      sets of its targets, drop the vertex, drop the edges into it from the sources
      its (updated) reverse set names, and drop its reverse set. */
  function RemovedVertex<V, E>(s: Store<V, E>, id: nat): Store<V, E>
  {
    if id !in s.data then s
    else
      var rev1 := DropSource(s.rev, id, s.data[id].out.Keys);
      var data1 := s.data - {id};
      var data2 := if id in rev1 then DropTarget(data1, id, rev1[id]) else data1;
      Store(data2, rev1 - {id}, s.last)
  }

  /** On a well-formed store, removing a live vertex deletes it with every edge that
      touches it, keeps every other vertex, label and edge list, keeps the counter,
      and keeps the invariant. */
  lemma RemoveVertexEffect<V, E>(s: Store<V, E>, id: nat)
    requires WellFormed(s)
    ensures var r := RemovedVertex(s, id);
      && r.last == s.last
      && VerticesVec(r) == set p | p in VerticesVec(s) && p.0 != id
      && EdgesVec(r) == set e | e in EdgesVec(s) && e.0 != id && e.1 != id
      && WellFormed(r)
  {
    if id in s.data {
      RemoveVertexEdges(s, id);
      RemoveVertexKeepsWellFormed(s, id);
    }
  }

  /** Removing a vertex keeps the store invariant and the counter's cover. */
  lemma RemoveVertexKeepsValid<V, E>(s: Store<V, E>, id: nat)
    requires WellFormed(s) && CounterCovers(s)
    ensures WellFormed(RemovedVertex(s, id)) && CounterCovers(RemovedVertex(s, id))
  {
    if id in s.data {
      RemoveVertexKeepsWellFormed(s, id);
      RemoveVertexRev(s, id);
    }
  }

  /** After the removal, `id` is a key of neither map and is mentioned nowhere. */
  lemma RemoveVertexForgetsId<V, E>(s: Store<V, E>, id: nat)
    requires WellFormed(s)
    ensures var r := RemovedVertex(s, id);
      && id !in r.data && id !in r.rev
      && (forall k | k in r.data :: id !in r.data[k].out)
      && (forall t | t in r.rev :: id !in r.rev[t])
  {
    if id in s.data {
      RemoveVertexOut(s, id);
      RemoveVertexRev(s, id);
    }
  }

  lemma RemoveVertexEdges<V, E>(s: Store<V, E>, id: nat)
    requires WellFormed(s) && id in s.data
    ensures var r := RemovedVertex(s, id);
      && VerticesVec(r) == set p | p in VerticesVec(s) && p.0 != id
      && EdgesVec(r) == set e | e in EdgesVec(s) && e.0 != id && e.1 != id
  {
    var r := RemovedVertex(s, id);
    assert r.data.Keys == s.data.Keys - {id};
    assert forall k | k in r.data :: r.data[k].tag == s.data[k].tag;
    RemoveVertexOut(s, id);
    VerticesWithout(s, r, id);
    EdgesWithout(s, r, id);
  }

  /** Each surviving vertex loses exactly its edges into `id`. */
  lemma RemoveVertexOut<V, E>(s: Store<V, E>, id: nat)
    requires WellFormed(s) && id in s.data
    ensures forall k | k in RemovedVertex(s, id).data ::
      RemovedVertex(s, id).data[k].out == s.data[k].out - {id}
  {
    var r := RemovedVertex(s, id);
    var rev1 := DropSource(s.rev, id, s.data[id].out.Keys);
    assert id in rev1;
    forall k | k in r.data
      ensures r.data[k].out == s.data[k].out - {id}
    {
      if k !in rev1[id] {
        assert k != id && k !in s.rev[id];
        assert id !in s.data[k].out;
      }
    }
  }

  lemma RemoveVertexKeepsWellFormed<V, E>(s: Store<V, E>, id: nat)
    requires WellFormed(s) && id in s.data
    ensures WellFormed(RemovedVertex(s, id))
  {
    RemoveVertexOut(s, id);
    RemoveVertexRev(s, id);
    DropVertexKeepsWellFormed(s, RemovedVertex(s, id), id);
  }

  /** Each surviving reverse set loses exactly `id`. */
  lemma RemoveVertexRev<V, E>(s: Store<V, E>, id: nat)
    requires WellFormed(s) && id in s.data
    ensures RemovedVertex(s, id).data.Keys == s.data.Keys - {id}
    ensures RemovedVertex(s, id).rev.Keys == s.rev.Keys - {id}
    ensures forall t | t in RemovedVertex(s, id).rev :: RemovedVertex(s, id).rev[t] == s.rev[t] - {id}
  {
    var r := RemovedVertex(s, id);
    forall t | t in r.rev
      ensures r.rev[t] == s.rev[t] - {id}
    {
      if t !in s.data[id].out {
        assert id !in s.rev[t];
      }
    }
  }

  /** Deleting a vertex from both maps, from every target map and from every
      reverse set keeps the store invariant. */
  lemma DropVertexKeepsWellFormed<V, E>(s: Store<V, E>, r: Store<V, E>, id: nat)
    requires WellFormed(s)
    requires r.data.Keys == s.data.Keys - {id} && r.rev.Keys == s.rev.Keys - {id}
    requires forall k | k in r.data :: r.data[k].out == s.data[k].out - {id}
    requires forall t | t in r.rev :: r.rev[t] == s.rev[t] - {id}
    ensures WellFormed(r)
  {
    forall f, t | f in r.data && t in r.data[f].out
      ensures t in r.rev && f in r.rev[t] && r.data[f].out[t] != []
    {
      assert t in s.data[f].out;
    }
    forall t, f | t in r.rev && f in r.rev[t]
      ensures f in r.data && t in r.data[f].out
    {
      assert f in s.rev[t];
    }
  }

  /** A vertex added to a store whose counter covers its ids, then removed, leaves
      both maps as they were; only the counter has moved on. */
  lemma AddThenRemoveVertex<V, E>(s: Store<V, E>, tag: V)
    requires IdsLive(s) && CounterCovers(s)
    ensures RemovedVertex(AddedVertex(s, tag), s.last + 1) == Store(s.data, s.rev, s.last + 1)
  {
    var n := s.last + 1;
    var a := AddedVertex(s, tag);
    assert n !in s.data && n !in s.rev;
    var rev1 := DropSource(a.rev, n, a.data[n].out.Keys);
    assert rev1 == a.rev;
    assert rev1[n] == {};
    assert DropTarget(a.data - {n}, n, {}) == s.data;
    assert rev1 - {n} == s.rev;
  }

  // ----------------------------------------------------------------- add_edge

  /** `add_edge`: when `f` is a vertex and `t` has a reverse set, append `Some(l)`
      to the `(f, t)` list, creating the list and the reverse membership if it was
      the first such edge; otherwise change nothing. */
  function AddedEdge<V, E>(s: Store<V, E>, f: nat, t: nat, l: E): Store<V, E>
  {
    if f in s.data && t in s.rev then
      var v := s.data[f];
      if t in v.out then
        Store(s.data[f := Vertex(v.tag, v.out[t := v.out[t] + [Some(l)]])], s.rev, s.last)
      else
        Store(s.data[f := Vertex(v.tag, v.out[t := [Some(l)]])], s.rev[t := s.rev[t] + {f}], s.last)
    else s
  }

  /** The `(f, t)` list grows by `Some(l)` at its end, every other list, every
      vertex label and the counter stay; with an endpoint missing the store is
      unchanged. */
  lemma AddEdgeEffect<V, E>(s: Store<V, E>, f: nat, t: nat, l: E)
    ensures var r := AddedEdge(s, f, t, l);
      && r.last == s.last
      && VerticesVec(r) == VerticesVec(s)
      && (f in s.data && t in s.rev ==> Labels(r, f, t) == Labels(s, f, t) + [Some(l)])
      && (forall a: nat, b: nat :: (a, b) != (f, t) ==> Labels(r, a, b) == Labels(s, a, b))
      && (f !in s.data || t !in s.rev ==> r == s)
  {
    AddEdgeKeepsVertices(s, f, t, l);
    if f in s.data && t in s.rev {
      AddEdgeAppends(s, f, t, l);
    }
    AddEdgeKeepsOtherPairs(s, f, t, l);
  }

  lemma AddEdgeAppends<V, E>(s: Store<V, E>, f: nat, t: nat, l: E)
    requires f in s.data && t in s.rev
    ensures var r := AddedEdge(s, f, t, l);
      f in r.data && t in r.rev && Labels(r, f, t) == Labels(s, f, t) + [Some(l)]
  {
  }

  lemma AddEdgeKeepsOtherPairs<V, E>(s: Store<V, E>, f: nat, t: nat, l: E)
    ensures forall a: nat, b: nat :: (a, b) != (f, t) ==> Labels(AddedEdge(s, f, t, l), a, b) == Labels(s, a, b)
  {
  }

  lemma AddEdgeKeepsVertices<V, E>(s: Store<V, E>, f: nat, t: nat, l: E)
    ensures AddedEdge(s, f, t, l).last == s.last
    ensures VerticesVec(AddedEdge(s, f, t, l)) == VerticesVec(s)
  {
    var r := AddedEdge(s, f, t, l);
    if f in s.data && t in s.rev {
      SameTagsSameVertices(s, r);
    }
  }

  /** Adding an edge keeps the store invariant. */
  lemma AddEdgePreservesWellFormed<V, E>(s: Store<V, E>, f: nat, t: nat, l: E)
    requires WellFormed(s)
    ensures WellFormed(AddedEdge(s, f, t, l))
  {
    AddEdgeKeepsIds(s, f, t, l);
    AddEdgeKeepsForward(s, f, t, l);
    AddEdgeKeepsReverse(s, f, t, l);
    AddEdgeKeepsNonEmpty(s, f, t, l);
  }

  lemma AddEdgeKeepsIds<V, E>(s: Store<V, E>, f: nat, t: nat, l: E)
    requires WellFormed(s)
    ensures IdsLive(AddedEdge(s, f, t, l))
    ensures AddedEdge(s, f, t, l).data.Keys == AddedEdge(s, f, t, l).rev.Keys
  {
  }

  lemma AddEdgeKeepsForward<V, E>(s: Store<V, E>, f: nat, t: nat, l: E)
    requires WellFormed(s)
    ensures ForwardIndexed(AddedEdge(s, f, t, l))
  {
  }

  lemma AddEdgeKeepsReverse<V, E>(s: Store<V, E>, f: nat, t: nat, l: E)
    requires WellFormed(s)
    ensures ReverseIndexed(AddedEdge(s, f, t, l))
  {
  }

  lemma AddEdgeKeepsNonEmpty<V, E>(s: Store<V, E>, f: nat, t: nat, l: E)
    requires WellFormed(s)
    ensures NoEmptyLists(AddedEdge(s, f, t, l))
  {
  }

  /** `k` calls of `add_edge` with the same arguments. */
  function AddedEdgeTimes<V, E>(s: Store<V, E>, f: nat, t: nat, l: E, k: nat): Store<V, E>
  {
    if k == 0 then s else AddedEdge(AddedEdgeTimes(s, f, t, l, k - 1), f, t, l)
  }

  /** `k` inserts of the same edge add `k` copies of its label at the end of the list. */
  lemma {:induction false} AddEdgeTimesCopies<V, E>(s: Store<V, E>, f: nat, t: nat, l: E, k: nat)
    requires f in s.data && t in s.rev
    ensures var r := AddedEdgeTimes(s, f, t, l, k);
      && f in r.data && t in r.rev
      && Labels(r, f, t) == Labels(s, f, t) + seq(k, _ => Some(l))
  {
    if k > 0 {
      var p := AddedEdgeTimes(s, f, t, l, k - 1);
      AddEdgeTimesCopies(s, f, t, l, k - 1);
      AddEdgeAppends(p, f, t, l);
      assert seq(k - 1, _ => Some(l)) + [Some(l)] == seq(k, _ => Some(l));
    }
  }

  // -------------------------------------------------------------- remove_edge

  /** `remove_edge`: when `f` is a vertex, `t` has a reverse set and there is a
      `(f, t)` list holding `Some(l)`, swap-remove its first occurrence, deleting the
      list and the reverse membership when it empties; otherwise change nothing. */
  function RemovedEdge<V, E(==)>(s: Store<V, E>, f: nat, t: nat, l: E): Store<V, E>
  {
    if f in s.data && t in s.rev && t in s.data[f].out then
      var v := s.data[f];
      var es := v.out[t];
      var i := IndexOf(es, Some(l));
      if i == |es| then s
      else
        var rest := SwapRemove(es, i);
        if rest == [] then
          Store(s.data[f := Vertex(v.tag, v.out - {t})], s.rev[t := s.rev[t] - {f}], s.last)
        else
          Store(s.data[f := Vertex(v.tag, v.out[t := rest])], s.rev, s.last)
    else s
  }

  /** Removing an edge takes exactly one `Some(l)` out of the `(f, t)` list, by
      moving its last label into the first matching slot; every other list, every
      vertex label and the counter stay. When no edge matches (or an endpoint is
      missing) nothing changes. */
  lemma RemoveEdgeEffect<V, E>(s: Store<V, E>, f: nat, t: nat, l: E)
    ensures var r := RemovedEdge(s, f, t, l);
      && r.last == s.last
      && VerticesVec(r) == VerticesVec(s)
      && (forall a: nat, b: nat :: (a, b) != (f, t) ==> Labels(r, a, b) == Labels(s, a, b))
      && (f in s.data && t in s.rev && Some(l) in Labels(s, f, t) ==>
            && Labels(r, f, t) == SwapRemove(Labels(s, f, t), IndexOf(Labels(s, f, t), Some(l)))
            && multiset(Labels(r, f, t)) == multiset(Labels(s, f, t)) - multiset{Some(l)})
      && (f !in s.data || t !in s.rev || Some(l) !in Labels(s, f, t) ==> r == s)
  {
    RemoveEdgeKeepsVertices(s, f, t, l);
    RemoveEdgeKeepsOtherPairs(s, f, t, l);
    if f in s.data && t in s.rev && Some(l) in Labels(s, f, t) {
      RemoveEdgeTakesOne(s, f, t, l);
    }
  }

  lemma RemoveEdgeTakesOne<V, E>(s: Store<V, E>, f: nat, t: nat, l: E)
    requires f in s.data && t in s.rev && Some(l) in Labels(s, f, t)
    ensures var r := RemovedEdge(s, f, t, l);
      && Labels(r, f, t) == SwapRemove(Labels(s, f, t), IndexOf(Labels(s, f, t), Some(l)))
      && multiset(Labels(r, f, t)) == multiset(Labels(s, f, t)) - multiset{Some(l)}
  {
    var es := Labels(s, f, t);
    var i := IndexOf(es, Some(l));
    SwapRemoveMultiset(es, i);
  }

  lemma RemoveEdgeKeepsOtherPairs<V, E>(s: Store<V, E>, f: nat, t: nat, l: E)
    ensures forall a: nat, b: nat :: (a, b) != (f, t) ==> Labels(RemovedEdge(s, f, t, l), a, b) == Labels(s, a, b)
  {
  }

  lemma RemoveEdgeKeepsVertices<V, E>(s: Store<V, E>, f: nat, t: nat, l: E)
    ensures RemovedEdge(s, f, t, l).last == s.last
    ensures VerticesVec(RemovedEdge(s, f, t, l)) == VerticesVec(s)
  {
    var r := RemovedEdge(s, f, t, l);
    if f in s.data && t in s.rev && t in s.data[f].out {
      SameTagsSameVertices(s, r);
    }
  }

  /** Removing an edge keeps the store invariant. */
  lemma RemoveEdgePreservesWellFormed<V, E>(s: Store<V, E>, f: nat, t: nat, l: E)
    requires WellFormed(s)
    ensures WellFormed(RemovedEdge(s, f, t, l))
  {
    RemoveEdgeKeepsIds(s, f, t, l);
    RemoveEdgeKeepsForward(s, f, t, l);
    RemoveEdgeKeepsReverse(s, f, t, l);
    RemoveEdgeKeepsNonEmpty(s, f, t, l);
  }

  lemma RemoveEdgeKeepsIds<V, E>(s: Store<V, E>, f: nat, t: nat, l: E)
    requires WellFormed(s)
    ensures IdsLive(RemovedEdge(s, f, t, l))
    ensures RemovedEdge(s, f, t, l).data.Keys == RemovedEdge(s, f, t, l).rev.Keys
  {
  }

  lemma RemoveEdgeKeepsForward<V, E>(s: Store<V, E>, f: nat, t: nat, l: E)
    requires WellFormed(s)
    ensures ForwardIndexed(RemovedEdge(s, f, t, l))
  {
  }

  lemma RemoveEdgeKeepsReverse<V, E>(s: Store<V, E>, f: nat, t: nat, l: E)
    requires WellFormed(s)
    ensures ReverseIndexed(RemovedEdge(s, f, t, l))
  {
  }

  lemma RemoveEdgeKeepsNonEmpty<V, E>(s: Store<V, E>, f: nat, t: nat, l: E)
    requires WellFormed(s)
    ensures NoEmptyLists(RemovedEdge(s, f, t, l))
  {
  }

  /** Removing the edge just added restores the store exactly: the appended label
      is either the first match (and is swap-removed from the end) or it lands on
      an equal label. */
  lemma AddThenRemoveEdge<V, E>(s: Store<V, E>, f: nat, t: nat, l: E)
    requires WellFormed(s)
    ensures RemovedEdge(AddedEdge(s, f, t, l), f, t, l) == s
  {
    if f in s.data && t in s.rev {
      if t in s.data[f].out {
        AddThenRemoveOnList(s, f, t, l);
      } else {
        AddThenRemoveFirstEdge(s, f, t, l);
      }
    }
  }

  /** On an existing list the appended label is either the first match, and is
      swap-removed from the end, or it is moved onto an equal label. */
  lemma AddThenRemoveOnList<V, E>(s: Store<V, E>, f: nat, t: nat, l: E)
    requires f in s.data && t in s.rev && t in s.data[f].out && s.data[f].out[t] != []
    ensures RemovedEdge(AddedEdge(s, f, t, l), f, t, l) == s
  {
    var v := s.data[f];
    var es := v.out[t];
    var a := AddedEdge(s, f, t, l);
    assert a.data[f] == Vertex(v.tag, v.out[t := es + [Some(l)]]);
    assert (es + [Some(l)])[|es|] == Some(l);
    var i := IndexOf(es + [Some(l)], Some(l));
    assert SwapRemove(es + [Some(l)], i) == es by {
      if i < |es| {
        assert es[i] == Some(l);
      }
    }
    assert RemovedEdge(a, f, t, l) == Store(a.data[f := Vertex(v.tag, a.data[f].out[t := es])], a.rev, a.last);
    assert v.out[t := es + [Some(l)]][t := es] == v.out;
    assert s.data[f := v] == s.data;
  }

  /** A first edge and its reverse membership are both taken back. */
  lemma AddThenRemoveFirstEdge<V, E>(s: Store<V, E>, f: nat, t: nat, l: E)
    requires f in s.data && t in s.rev && t !in s.data[f].out && f !in s.rev[t]
    ensures RemovedEdge(AddedEdge(s, f, t, l), f, t, l) == s
  {
    var v := s.data[f];
    assert IndexOf([Some(l)], Some(l)) == 0;
    assert v.out[t := [Some(l)]] - {t} == v.out;
    assert s.data[f := v] == s.data;
    assert s.rev[t := s.rev[t]] == s.rev;
  }
}
