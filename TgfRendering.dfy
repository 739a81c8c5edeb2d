/** What `serialize_to_tgf` writes: the rows in ascending order, exactly the
    accessor sets, one edge line per label; and reading the text back. */
module TgfRendering {
  import opened Wrappers
  import opened Seqs
  import opened Text
  import opened Adjacency
  import opened Compaction
  import opened Tgf
  import opened TgfParsing

  // ------------------------------------------------------------ vertex rows

  /** The vertex rows are the (id, label) pairs of `get_vertices_vec`, by strictly
      ascending id. */
  lemma VertexRowsSorted<V, E>(s: Store<V, E>)
    requires Dense(s)
    ensures var rows := VertexRows(s, |s.data|);
      && (forall i, j :: 0 <= i < j < |rows| ==> rows[i].0 < rows[j].0)
      && (forall p :: p in rows <==> p in VerticesVec(s))
  {
    var rows := VertexRows(s, |s.data|);
    forall p | p in VerticesVec(s)
      ensures p in rows
    {
      assert rows[p.0 - 1] == p;
    }
  }

  // ------------------------------------------------------------ edge rows

  /** Row `a` comes before row `b` in the order of `edges.sort()`. */
  predicate PairBefore<E>(a: (nat, nat, seq<Option<E>>), b: (nat, nat, seq<Option<E>>))
  {
    a.0 < b.0 || (a.0 == b.0 && a.1 < b.1)
  }

  predicate RowsAscending<E>(rows: seq<(nat, nat, seq<Option<E>>)>)
  {
    forall i, j :: 0 <= i < j < |rows| ==> PairBefore(rows[i], rows[j])
  }

  /** The (source, target, labels) triple of `s` at a pair. */
  ghost predicate IsEdgeRow<V, E>(s: Store<V, E>, p: (nat, nat, seq<Option<E>>))
  {
    p.0 in s.data && p.1 in s.data[p.0].out && p.2 == s.data[p.0].out[p.1]
  }

  lemma {:induction false} TargetRowsMembers<V, E>(s: Store<V, E>, f: nat, t: nat, n: nat)
    requires f in s.data
    ensures forall p :: p in TargetRows(s, f, t, n) <==> p.0 == f && t <= p.1 <= n && IsEdgeRow(s, p)
    ensures forall i :: 0 <= i < |TargetRows(s, f, t, n)| ==>
      TargetRows(s, f, t, n)[i].0 == f && t <= TargetRows(s, f, t, n)[i].1
    ensures RowsAscending(TargetRows(s, f, t, n))
    decreases n + 1 - t
  {
    if t <= n {
      var head: seq<(nat, nat, seq<Option<E>>)> := if t in s.data[f].out then [(f, t, s.data[f].out[t])] else [];
      var rest := TargetRows(s, f, t + 1, n);
      TargetRowsMembers(s, f, t + 1, n);
      AscendingConcat(head, rest);
      assert TargetRows(s, f, t, n) == head + rest;
    }
  }

  lemma {:induction false} EdgeRowsMembers<V, E>(s: Store<V, E>, f: nat, n: nat)
    requires forall k :: f <= k <= n ==> k in s.data
    ensures forall p :: p in EdgeRows(s, f, n) <==> f <= p.0 <= n && 1 <= p.1 <= n && IsEdgeRow(s, p)
    ensures forall i :: 0 <= i < |EdgeRows(s, f, n)| ==> f <= EdgeRows(s, f, n)[i].0
    ensures RowsAscending(EdgeRows(s, f, n))
    decreases n + 1 - f
  {
    if f <= n {
      var a := TargetRows(s, f, 1, n);
      var b := EdgeRows(s, f + 1, n);
      TargetRowsMembers(s, f, 1, n);
      EdgeRowsMembers(s, f + 1, n);
      AscendingConcat(a, b);
      var c := a + b;
      assert forall i :: 0 <= i < |c| ==> f <= c[i].0 by {
        forall i | 0 <= i < |c|
          ensures f <= c[i].0
        {
          if i < |a| {
            assert c[i] == a[i];
          } else {
            assert c[i] == b[i - |a|];
          }
        }
      }
    }
  }

  lemma AscendingConcat<E>(a: seq<(nat, nat, seq<Option<E>>)>, b: seq<(nat, nat, seq<Option<E>>)>)
    requires RowsAscending(a) && RowsAscending(b)
    requires forall i, j :: 0 <= i < |a| && 0 <= j < |b| ==> PairBefore(a[i], b[j])
    ensures RowsAscending(a + b)
  {
    var c := a + b;
    forall i, j | 0 <= i < j < |c|
      ensures PairBefore(c[i], c[j])
    {
      if j < |a| {
        assert c[i] == a[i] && c[j] == a[j];
      } else if i < |a| {
        assert c[i] == a[i] && c[j] == b[j - |a|];
      } else {
        assert c[i] == b[i - |a|] && c[j] == b[j - |a|];
      }
    }
  }

  /** The edge rows of a compacted store are the triples of `get_edges_vec`, by
      strictly ascending (source, target). */
  lemma EdgeRowsSorted<V, E>(s: Store<V, E>)
    requires Dense(s) && TargetsIn(s.data, s.data.Keys)
    ensures var rows := EdgeRows(s, 1, |s.data|);
      && RowsAscending(rows)
      && (forall p :: p in rows <==> p in EdgesVec(s))
  {
    var rows := EdgeRows(s, 1, |s.data|);
    EdgeRowsMembers(s, 1, |s.data|);
    forall p
      ensures p in rows <==> p in EdgesVec(s)
    {
      if p in EdgesVec(s) {
        assert p.1 in s.data;
      }
    }
  }

  // ------------------------------------------------------------ edge lines

  /** The number of labels over the rows. */
  function LabelCount<E>(rows: seq<(nat, nat, seq<Option<E>>)>): nat
  {
    if rows == [] then 0 else |rows[0].2| + LabelCount(rows[1..])
  }

  /** There is one edge line per label. */
  lemma {:induction false} EdgeItemsCount<E>(rows: seq<(nat, nat, seq<Option<E>>)>)
    ensures |EdgeItems(rows)| == LabelCount(rows)
  {
    if rows != [] {
      EdgeItemsCount(rows[1..]);
    }
  }

  /** An empty graph is written as a lone separator line. */
  lemma RenderEmpty(s: Store<string, string>)
    requires s.data == map[]
    ensures Dense(s) && Render(s) == "#\n"
  {
    assert VertexRows(s, 0) == [];
    assert EdgeRows(s, 1, 0) == [];
  }
}
