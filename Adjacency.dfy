/** The adjacency store of the multigraph: a forward map from vertex id to its label
    and its outgoing edge lists, a reverse index from target id to the set of its
    sources, and the id counter. */
module Adjacency {
  import opened Wrappers

  /** A vertex: its optional label (`tag`) and, per target id, the labels of the parallel
      edges to it, in insertion order. */
  datatype Vertex<V, E> = Vertex(tag: Option<V>, out: map<nat, seq<Option<E>>>)

  /** The three fields of the graph, as one value. */
  datatype Store<V, E> = Store(data: map<nat, Vertex<V, E>>, rev: map<nat, set<nat>>, last: nat)

  /** Every id mentioned in a target map, as a reverse-index key or as a
      reverse-index member is a live vertex. */
  ghost predicate IdsLive<V, E>(s: Store<V, E>)
  {
    && s.rev.Keys <= s.data.Keys
    && MembersIn(s.rev, s.data.Keys)
    && TargetsIn(s.data, s.data.Keys)
  }

  /** Every target of every vertex is in `ids`. */
  ghost predicate TargetsIn<V, E>(data: map<nat, Vertex<V, E>>, ids: set<nat>)
  {
    forall f, t :: f in data && t in data[f].out ==> t in ids
  }

  /** Every member of every reverse set is in `ids`. */
  ghost predicate MembersIn(rev: map<nat, set<nat>>, ids: set<nat>)
  {
    forall t, f :: t in rev && f in rev[t] ==> f in ids
  }

  /** The store invariant: both maps have the same vertices, a target is in a
      source's map exactly when the source is in the target's reverse set, every
      mentioned id is live, and no edge list is empty. */
  ghost predicate WellFormed<V, E>(s: Store<V, E>)
  {
    && IdsLive(s)
    && s.data.Keys == s.rev.Keys
    && ForwardIndexed(s)
    && ReverseIndexed(s)
    && NoEmptyLists(s)
  }

  /** Every edge's source is in its target's reverse set. */
  ghost predicate ForwardIndexed<V, E>(s: Store<V, E>)
  {
    forall f, t :: f in s.data && t in s.data[f].out ==> t in s.rev && f in s.rev[t]
  }

  /** Every reverse-set member has an edge list to the target. */
  ghost predicate ReverseIndexed<V, E>(s: Store<V, E>)
  {
    forall t, f :: t in s.rev && f in s.rev[t] ==> f in s.data && t in s.data[f].out
  }

  /** No stored edge list is empty. */
  ghost predicate NoEmptyLists<V, E>(s: Store<V, E>)
  {
    forall f, t :: f in s.data && t in s.data[f].out ==> s.data[f].out[t] != []
  }

  /** The counter is at least every live id, so the next id is unused. */
  ghost predicate CounterCovers<V, E>(s: Store<V, E>)
  {
    forall k :: k in s.data ==> k <= s.last
  }

  /** The live ids are exactly 1..N. */
  ghost predicate Dense<V, E>(s: Store<V, E>)
  {
    forall k :: k in s.data <==> 1 <= k <= |s.data|
  }

  /** `get_vertices_vec`: the (id, label) pairs, in no particular order. */
  ghost function VerticesVec<V, E>(s: Store<V, E>): (r: set<(nat, Option<V>)>)
    ensures forall k | k in s.data :: (k, s.data[k].tag) in r
    ensures forall p | p in r :: p.0 in s.data && s.data[p.0].tag == p.1
  {
    set k | k in s.data :: (k, s.data[k].tag)
  }

  /** `get_edges_vec`: one (source, target, labels) triple per connected ordered
      pair, in no particular order. */
  ghost function EdgesVec<V, E>(s: Store<V, E>): (r: set<(nat, nat, seq<Option<E>>)>)
    ensures forall f, t | f in s.data && t in s.data[f].out :: (f, t, s.data[f].out[t]) in r
    ensures forall p | p in r :: p.0 in s.data && p.1 in s.data[p.0].out && s.data[p.0].out[p.1] == p.2
  {
    set f, t | f in s.data && t in s.data[f].out :: (f, t, s.data[f].out[t])
  }
}
